/** ExternalDNSPolicyReconciler: the loops that change namespaces, policies and statuses in place, with any
    of their API calls failing, for a run with no user step in between. PolicyProtocol takes the same steps
    one by one. */
module PolicyController {
  import opened Text
  import opened Objects
  import opened Policies
  import opened PolicyEnforcement
  import PolicyInvariants

  /** Which of a run's API calls fail, otherwise than by not finding the object: reading the policy, patching
      its finalizer, looking up the pool and the profile, listing the namespaces, reading and patching one
      of them, patching the status. `error` is the error that they return. */
  datatype Api = Api(
    get: bool, finalizer: bool, pool: bool, profile: bool, list: bool, read: string -> bool, patch: string -> bool,
    status: bool, error: string)
  {
    function PoolError(): Option<string> { if pool then Some(error) else None }
    function ProfileError(): Option<string> { if profile then Some(error) else None }
  }

  datatype Outcome = Done | Failed

  /** What enforcing a policy, or one namespace of it, comes to. `Taken` tells the conflict that stopped it. */
  datatype Enforced = Applied(count: nat) | Taken(name: string, holder: string) | CallFailed

  /** A release that has to be patched fails. */
  predicate ReleaseFails(a: Annotations, fails: bool) { a.Keys * POLICY_KEYS != {} && fails }

  /** Some call of enforcePolicy's first loop, or of its listing, fails. */
  ghost predicate ReleasingFails(nss: Namespaces, p: Policy, api: Api) {
    || api.list
    || exists n :: n in nss && Owner(nss[n]) == p.uid && n !in Selected(p.spec) && ReleaseFails(nss[n], api.patch(n))
  }

  predicate ApplyFails(nss: Namespaces, n: string, key: Key, p: Policy, api: Api) {
    api.read(n) || (n in nss && Annotate(nss[n], key, p) != nss[n] && api.patch(n))
  }

  /** Some call of its second loop fails, if the loop gets there. */
  ghost predicate ApplyingFails(nss: Namespaces, key: Key, p: Policy, api: Api) {
    exists n :: n in Selected(p.spec) && ApplyFails(nss, n, key, p, api)
  }

  ghost predicate ClearingFails(nss: Namespaces, uid: string, api: Api) {
    api.list || exists n :: n in nss && Owner(nss[n]) == uid && ReleaseFails(nss[n], api.patch(n))
  }

  /** All but the pending ones are as in the second state. */
  ghost predicate UpTo(nss: Namespaces, before: Namespaces, after: Namespaces, pending: set<string>) {
    && nss.Keys == before.Keys == after.Keys
    && forall n :: n in nss ==> nss[n] == if n in pending then before[n] else after[n]
  }

  /** The conflict is one of the policy's. */
  ghost predicate Tells(nss: Namespaces, p: Policy, r: Enforced)
    requires r.Taken?
  {
    r.name in Targets(nss, p) && Conflicts(nss[r.name], p.uid) && r.holder == Holder(nss[r.name])
  }

  /** Each namespace is as in one of the two states. */
  ghost predicate Between(nss: Namespaces, before: Namespaces, after: Namespaces) {
    nss.Keys == before.Keys == after.Keys && forall n :: n in nss ==> nss[n] == before[n] || nss[n] == after[n]
  }

  /** How one run leaves the namespaces, the policy's status and the queue: the policy is live, `p` is the
      policy with its finalizer, and `broken` the verdict on its references. */
  ghost predicate LiveRun(before: Namespaces, after: Namespaces, key: Key, p: Policy, status: Status, outcome: Outcome,
                          broken: Option<ReferenceError>, api: Api) {
    if broken.Some? then
      after == before && outcome == (if api.status then Failed else Done)
      && status == (if api.status then p.status else Invalid(p.generation, broken.value))
    else if Conflicted(before, p) || ReleasingFails(before, p, api) || ApplyingFails(before, key, p, api) then
      && Between(after, before, EnforcedState(before, key, p))
      // only a conflict is not tried again
      && (outcome == Done ==> !api.status && PolicyInvariants.TellsConflict(before, p, status))
      && (outcome == Failed ==> status == if api.status then p.status else Broken(p.generation, api.error))
      && (!ReleasingFails(before, p, api) && !ApplyingFails(before, key, p, api) && !api.status ==> outcome == Done)
    else
      && after == EnforcedState(before, key, p)
      && status == (if api.status then p.status else Enforcement(p.generation, |Targets(before, p)|))
      && outcome == (if api.status then Failed else Done)
  }

  /** The fields of the status that a run writes: Validated exactly if the references were found valid, nobody else
      owns a target and no call failed; the reason tells these apart; namespaces are counted only then. */
  ghost predicate StatusTells(before: Namespaces, key: Key, p: Policy, status: Status, broken: Option<ReferenceError>,
                              api: Api) {
    var stopped := Conflicted(before, p) || ReleasingFails(before, p, api) || ApplyingFails(before, key, p, api);
    && status.condition.Some?
    && var c := status.condition.value;
    && (c.validated <==> broken.None? && !stopped)
    && (c.reason == ValidationFailed <==> broken.Some?)
    && (c.reason == EnforcementFailed <==> broken.None? && stopped)
    && (c.reason == Policies.Enforced <==> c.validated)
    && status.applied == (if c.validated then |Selected(p.spec) * before.Keys| else 0)
    && c.generation == status.generation == p.generation
  }

  lemma LiveRunTells(before: Namespaces, after: Namespaces, key: Key, p: Policy, status: Status, outcome: Outcome,
                     broken: Option<ReferenceError>, api: Api)
    requires LiveRun(before, after, key, p, status, outcome, broken, api) && !api.status
    ensures StatusTells(before, key, p, status, broken, api)
  {
    hide Selected, Conflicts, ReleasingFails, ApplyingFails, EnforcedState, Between;
  }

  class ExternalDNSPolicyReconciler {
    const names: Names
    var policies: map<Key, Policy>
    var namespaces: Namespaces
    var pools: set<Key>
    var profiles: set<Key>

    constructor (names: Names, policies: map<Key, Policy>, namespaces: Namespaces, pools: set<Key>, profiles: set<Key>)
      ensures this.policies == policies && this.namespaces == namespaces && this.pools == pools
              && this.profiles == profiles
      ensures this.names.isLabel == names.isLabel && this.names.isSubdomain == names.isSubdomain
    {
      this.names, this.policies, this.namespaces := names, policies, namespaces;
      this.pools, this.profiles := pools, profiles;
    }

    /** Changes nothing if another policy owns the namespace, and sends no patch if there is nothing to change. */
    method UpdateNamespacePolicyAnnotations(name: string, key: Key, p: Policy, fails: bool) returns (r: Enforced)
      requires name in namespaces
      modifies this`namespaces
      ensures r == if Conflicts(old(namespaces)[name], p.uid) then Taken(name, Holder(old(namespaces)[name]))
                   else if Annotate(old(namespaces)[name], key, p) != old(namespaces)[name] && fails then CallFailed
                   else Applied(1)
      ensures namespaces == if r.Applied? then old(namespaces)[name := Annotate(old(namespaces)[name], key, p)]
                            else old(namespaces)
    {
      hide QualifiedName, TrimSpace;
      var a := namespaces[name];
      var existingUID := Get(a, OWNER_UID);
      if existingUID != "" && existingUID != p.uid {
        var existingPolicy := Get(a, POLICY_NAME);
        if existingPolicy == "" {
          existingPolicy := existingUID;
        }
        return Taken(name, existingPolicy);
      }
      var changed := false;
      if Get(a, OWNER_UID) != p.uid {
        a := a[OWNER_UID := p.uid];
        changed := true;
      }
      var policyName := QualifiedName(key);
      if Get(a, POLICY_NAME) != policyName {
        a := a[POLICY_NAME := policyName];
        changed := true;
      }
      if Get(a, UPSTREAM_REF) != p.spec.upstreamRef {
        a := a[UPSTREAM_REF := p.spec.upstreamRef];
        changed := true;
      }
      var cache := TrimSpace(p.spec.cacheRef);
      if cache == "" {
        if CACHE_REF in a {
          a := a - {CACHE_REF};
          changed := true;
        } else {
          assert a - {CACHE_REF} == a;
        }
      } else if Get(a, CACHE_REF) != cache {
        a := a[CACHE_REF := cache];
        changed := true;
      }
      assert a == Annotate(old(namespaces)[name], key, p);
      assert changed <==> a != namespaces[name];
      if !changed {
        assert namespaces == namespaces[name := a];
        return Applied(1);
      }
      if fails {
        return CallFailed;
      }
      namespaces := namespaces[name := a];
      r := Applied(1);
    }

    /** Takes the policy keys of the listed copy out of the namespace; a patch of one that is gone fails. */
    method RemoveNamespacePolicyAnnotations(name: string, copy: Annotations, fails: bool) returns (ok: bool)
      modifies this`namespaces
      ensures ok <==> !ReleaseFails(copy, fails || name !in old(namespaces))
      ensures namespaces == if ok && name in old(namespaces) then
                              old(namespaces)[name := RemovePatch(old(namespaces)[name], copy)]
                            else old(namespaces)
    {
      hide RemovePatch;
      var keys := [OWNER_UID, POLICY_NAME, UPSTREAM_REF, CACHE_REF];
      var rest := copy;
      var removed: set<string> := {};
      for i := 0 to |keys|
        invariant removed == set k | k in keys[..i] && k in copy
        invariant rest == copy - removed
      {
        if keys[i] in rest {
          rest := rest - {keys[i]};
          removed := removed + {keys[i]};
        }
        assert keys[..i + 1] == keys[..i] + [keys[i]];
      }
      assert removed == copy.Keys * POLICY_KEYS by {
        assert keys[..|keys|] == keys;
        assert forall k :: k in keys <==> k in POLICY_KEYS;
      }
      ghost var current := if name in namespaces then namespaces[name] else map[];
      PatchSent(current, copy);
      if removed == {} {
        assert name in namespaces ==> namespaces == namespaces[name := namespaces[name]];
        return true;
      }
      if fails || name !in namespaces {
        return false;
      }
      if |rest| == 0 {
        namespaces := namespaces[name := map[]];
      } else {
        namespaces := namespaces[name := namespaces[name] - removed];
      }
      ok := true;
    }

    /** The namespaces that name the policy, as copies. */
    method ListManagedPolicyNamespaces(uid: string, fails: bool) returns (r: Option<Namespaces>)
      ensures r == if fails then None else Some(map n | n in namespaces && Owner(namespaces[n]) == uid :: namespaces[n])
    {
      hide Owner;
      if fails {
        return None;
      }
      var managed: Namespaces := map[];
      var todo := namespaces.Keys;
      while todo != {}
        invariant todo <= namespaces.Keys
        invariant managed == map n | n in namespaces && n !in todo && Owner(namespaces[n]) == uid :: namespaces[n]
        decreases todo
      {
        var n :| n in todo;
        if Owner(namespaces[n]) == uid {
          managed := managed[n := namespaces[n]];
        }
        todo := todo - {n};
      }
      assert managed == map n | n in namespaces && Owner(namespaces[n]) == uid :: namespaces[n];
      r := Some(managed);
    }

    /** enforcePolicy's first loop; stops at the first call that fails. */
    method ReleaseUnselected(p: Policy, api: Api) returns (ok: bool)
      modifies this`namespaces
      ensures ok <==> !ReleasingFails(old(namespaces), p, api)
      ensures ok ==> namespaces == Released(old(namespaces), p)
      ensures Between(namespaces, old(namespaces), Released(old(namespaces), p))
    {
      hide Owner, Others, Selected, RemovePatch, Coherent, ReleaseFails, Fresh, UpTo, Released;
      ghost var before, after := namespaces, Released(namespaces, p);
      var selected := Selected(p.spec);
      var listed := ListManagedPolicyNamespaces(p.uid, api.list);
      if listed.None? {
        ReleasedKeys(before, p);
        return false;
      }
      var pending := listed.value;
      ReleaseStarts(before, p, pending);
      while pending != map[]
        invariant Fresh(before, pending, p.uid)
        invariant UpTo(namespaces, before, after, pending.Keys)
        invariant forall n :: n in before && Owner(before[n]) == p.uid && n !in selected && n !in pending ==>
                    !ReleaseFails(before[n], api.patch(n))
        decreases pending.Keys
      {
        var n :| n in pending;
        ReleasesOne(namespaces, before, after, pending, p.uid, n);
        ReleasedAt(before, p, n);
        if n !in selected {
          ok := RemoveNamespacePolicyAnnotations(n, pending[n], api.patch(n));
          if !ok {
            UpToBetween(namespaces, before, after, pending.Keys);
            return;
          }
        }
        pending := pending - {n};
      }
      assert pending.Keys == {};
      UpToBetween(namespaces, before, after, {});
      ok := true;
    }

    /** Its second loop: visits the selected set in an arbitrary order, as Go visits a map, and stops at the
        first conflict or call that fails. */
    method ApplySelected(key: Key, p: Policy, api: Api) returns (r: Enforced)
      modifies this`namespaces
      ensures r.Applied? <==> !Conflicted(old(namespaces), p) && !ApplyingFails(old(namespaces), key, p, api)
      ensures r.Applied? ==> r.count == |Targets(old(namespaces), p)|
      ensures r.Taken? ==> Tells(old(namespaces), p, r)
      ensures r.CallFailed? ==> ApplyingFails(old(namespaces), key, p, api)
      ensures namespaces.Keys == old(namespaces).Keys
      ensures forall n :: n in namespaces ==>
                || (n in Selected(p.spec) && namespaces[n] == Annotate(old(namespaces)[n], key, p))
                || (namespaces[n] == old(namespaces)[n] && (r.Applied? ==> n !in Selected(p.spec)))
    {
      hide Owner, Annotate, Conflicts, Selected, AppliedUpTo, ApplyFails;
      ghost var before := namespaces;
      var todo := Selected(p.spec);
      var count := 0;
      AppliedStart(before, key, p);
      while todo != {}
        invariant AppliedUpTo(before, namespaces, key, p, todo, count)
        invariant forall n :: n in Selected(p.spec) && n !in todo ==> !ApplyFails(before, n, key, p, api)
        decreases todo
      {
        var n :| n in todo;
        AppliedNext(before, namespaces, key, p, todo, count, n);
        StillSelected(before, namespaces, key, p, todo, count, n);
        ApplyFailsMeans(before, n, key, p, api);
        if api.read(n) {
          StoppedPartly(before, namespaces, key, p, todo, count);
          return CallFailed;
        }
        if n in namespaces {
          r := UpdateNamespacePolicyAnnotations(n, key, p, api.patch(n));
          if !r.Applied? {
            StoppedPartly(before, namespaces, key, p, todo, count);
            if r.Taken? {
              TakenConflicts(before, p, n);
            }
            return;
          }
          count := count + 1;
        }
        todo := todo - {n};
      }
      AppliedEnd(before, namespaces, key, p, count);
      r := Applied(count);
    }

    /** Whatever the outcome, each namespace is as before or as enforced. */
    method EnforcePolicy(key: Key, p: Policy, api: Api) returns (r: Enforced)
      modifies this`namespaces
      ensures var before := old(namespaces);
              && (r.Applied? <==>
                    !Conflicted(before, p) && !ReleasingFails(before, p, api) && !ApplyingFails(before, key, p, api))
              && (r.Applied? ==> namespaces == EnforcedState(before, key, p) && r.count == |Targets(before, p)|)
              && (r.Taken? ==> Tells(before, p, r))
              && (r.CallFailed? ==> ReleasingFails(before, p, api) || ApplyingFails(before, key, p, api))
              && Between(namespaces, before, EnforcedState(before, key, p))
    {
      hide Owner, Annotate, Others, Conflicts, Selected, ReleaseFails, ReleasingFails;
      ghost var before := namespaces;
      var ok := ReleaseUnselected(p, api);
      if !ok {
        return CallFailed;
      }
      assert Targets(namespaces, p) == Targets(before, p);
      assert forall n :: n in Targets(before, p) ==> namespaces[n] == before[n];
      ReleasedApplyFails(before, key, p, api);
      hide ApplyFails;
      r := ApplySelected(key, p, api);
    }

    method ClearPolicyEnforcement(uid: string, api: Api) returns (ok: bool)
      modifies this`namespaces
      ensures ok <==> !ClearingFails(old(namespaces), uid, api)
      ensures ok ==> namespaces == ClearedState(old(namespaces), uid)
      ensures Between(namespaces, old(namespaces), ClearedState(old(namespaces), uid))
    {
      hide Owner, Others, RemovePatch, Coherent, ReleaseFails, Fresh, UpTo, ClearedState;
      ghost var before, after := namespaces, ClearedState(namespaces, uid);
      var listed := ListManagedPolicyNamespaces(uid, api.list);
      if listed.None? {
        ClearedKeys(before, uid);
        return false;
      }
      var pending := listed.value;
      ClearStarts(before, uid, pending);
      while pending != map[]
        invariant Fresh(before, pending, uid)
        invariant UpTo(namespaces, before, after, pending.Keys)
        invariant forall n :: n in before && Owner(before[n]) == uid && n !in pending ==>
                    !ReleaseFails(before[n], api.patch(n))
        decreases pending.Keys
      {
        var n :| n in pending;
        ReleasesOne(namespaces, before, after, pending, uid, n);
        ClearedAt(before, uid, n);
        ok := RemoveNamespacePolicyAnnotations(n, pending[n], api.patch(n));
        if !ok {
          UpToBetween(namespaces, before, after, pending.Keys);
          return;
        }
        pending := pending - {n};
      }
      assert pending.Keys == {};
      UpToBetween(namespaces, before, after, {});
      ok := true;
    }

    /** setValidatedCondition, and what Reconcile makes of its failure. */
    method SetValidatedCondition(key: Key, status: Status, fails: bool, result: Outcome) returns (outcome: Outcome)
      requires key in policies
      modifies this`policies
      ensures outcome == if fails then Failed else result
      ensures policies == old(policies)[key :=
              old(policies)[key].(status := if fails then old(policies)[key].status else status)]
    {
      if fails {
        assert policies == policies[key := policies[key]];
        return Failed;
      }
      policies := policies[key := policies[key].(status := status)];
      outcome := result;
    }

    /** The part of Reconcile that deals with a deleted policy. */
    method ReconcileDeleted(key: Key, api: Api) returns (outcome: Outcome)
      requires key in policies && policies[key].finalizer
      modifies this`policies, this`namespaces
      ensures var uid := old(policies)[key].uid;
              && outcome == (if ClearingFails(old(namespaces), uid, api) || api.finalizer then Failed else Done)
              && policies == (if outcome == Done then old(policies) - {key} else old(policies))
              && Between(namespaces, old(namespaces), ClearedState(old(namespaces), uid))
              && (!ClearingFails(old(namespaces), uid, api) ==> namespaces == ClearedState(old(namespaces), uid))
    {
      hide ClearedState, ClearingFails;
      var ok := ClearPolicyEnforcement(policies[key].uid, api);
      if !ok || api.finalizer {
        return Failed;
      }
      policies := policies - {key};
      outcome := Done;
    }

    /** The part of Reconcile that validates and enforces a live policy. */
    method ReconcileAdopted(key: Key, p: Policy, api: Api) returns (outcome: Outcome)
      requires key in policies && policies[key] == p
      modifies this`policies, this`namespaces
      ensures key in policies && policies == old(policies)[key := p.(status := policies[key].status)]
      ensures var broken := Verdict(key.ns, p.spec, pools, profiles, names, api.PoolError(), api.ProfileError());
              && LiveRun(old(namespaces), namespaces, key, p, policies[key].status, outcome, broken, api)
              && if api.status then policies[key].status == p.status
                 else StatusTells(old(namespaces), key, p, policies[key].status, broken, api)
    {
      hide Conflicted, EnforcedState, Targets, PoolRefOk, ProfileRefOk, ReferencesOk, Selected, ReleasingFails,
           ApplyingFails, Verdict, StatusTells;
      var invalid := ValidateReferences(key.ns, p.spec, pools, profiles, names, api.PoolError(), api.ProfileError());
      if invalid.Some? {
        outcome := SetValidatedCondition(key, Invalid(p.generation, invalid.value), api.status, Done);
      } else {
        var enforced := EnforcePolicy(key, p, api);
        match enforced {
          case CallFailed =>
            outcome := SetValidatedCondition(key, Broken(p.generation, api.error), api.status, Failed);
          case Taken(name, holder) =>
            TellsStatus(old(namespaces), p, enforced);
            outcome := SetValidatedCondition(key, BlockedBy(p.generation, name, holder), api.status, Done);
          case Applied(count) =>
            outcome := SetValidatedCondition(key, Enforcement(p.generation, count), api.status, Done);
        }
      }
      if !api.status {
        LiveRunTells(old(namespaces), namespaces, key, p, policies[key].status, outcome, invalid, api);
      }
    }

    /** One run without a user step in between. */
    method Reconcile(key: Key, api: Api) returns (outcome: Outcome)
      modifies this`policies, this`namespaces
      // the policy cannot be read, is gone, or is being deleted without the finalizer
      ensures api.get || key !in old(policies) || (old(policies)[key].deleting && !old(policies)[key].finalizer) ==>
                && policies == old(policies) && namespaces == old(namespaces)
                && outcome == if api.get then Failed else Done
      // the policy is being deleted: it goes when, and only when, it has been cleared
      ensures !api.get && key in old(policies) && old(policies)[key].deleting && old(policies)[key].finalizer ==>
                var uid := old(policies)[key].uid;
                && outcome == (if ClearingFails(old(namespaces), uid, api) || api.finalizer then Failed else Done)
                && policies == (if outcome == Done then old(policies) - {key} else old(policies))
                && Between(namespaces, old(namespaces), ClearedState(old(namespaces), uid))
                && (!ClearingFails(old(namespaces), uid, api) ==> namespaces == ClearedState(old(namespaces), uid))
      // the policy lives but cannot be given its finalizer
      ensures !api.get && key in old(policies) && !old(policies)[key].deleting && !old(policies)[key].finalizer
              && api.finalizer ==>
                policies == old(policies) && namespaces == old(namespaces) && outcome == Failed
      // the policy lives: it gets the finalizer and a status that tells what became of it
      ensures !api.get && key in old(policies) && !old(policies)[key].deleting
              && (old(policies)[key].finalizer || !api.finalizer) ==>
                var p := old(policies)[key].(finalizer := true);
                && key in policies
                && policies == old(policies)[key := p.(status := policies[key].status)]
                && var broken := Verdict(key.ns, p.spec, pools, profiles, names, api.PoolError(), api.ProfileError());
                && LiveRun(old(namespaces), namespaces, key, p, policies[key].status, outcome, broken, api)
                && if api.status then policies[key].status == p.status
                   else StatusTells(old(namespaces), key, p, policies[key].status, broken, api)
    {
      hide ClearedState, ClearingFails, LiveRun, Verdict, StatusTells;
      if api.get {
        return Failed;
      }
      if key !in policies {
        return Done;
      }
      var p := policies[key];
      if p.deleting {
        if !p.finalizer {
          return Done;
        }
        outcome := ReconcileDeleted(key, api);
        return;
      }
      if !p.finalizer {
        if api.finalizer {
          return Failed;
        }
        p := p.(finalizer := true);
        policies := policies[key := p];
      }
      assert policies == old(policies)[key := p];
      outcome := ReconcileAdopted(key, p, api);
    }

    /** mapNamespaceToPolicies, over a listing of all policies. */
    method MapNamespaceToPolicies(name: string, listed: seq<Key>) returns (requests: seq<Key>)
      requires forall k :: k in listed <==> k in policies
      ensures forall k :: k in requests <==> k in policies && name in Selected(policies[k].spec)
    {
      requests := [];
      for i := 0 to |listed|
        invariant forall k :: k in requests <==> k in listed[..i] && name in Selected(policies[k].spec)
      {
        var selector := policies[listed[i]].spec.selector;
        for j := 0 to |selector|
          invariant forall m :: 0 <= m < j ==> TrimSpace(selector[m]) != name
          invariant forall k :: k in requests <==> k in listed[..i] && name in Selected(policies[k].spec)
        {
          if TrimSpace(selector[j]) == name {
            assert name in Selected(policies[listed[i]].spec);
            requests := requests + [listed[i]];
            break;
          }
        }
        assert listed[..i + 1] == listed[..i] + [listed[i]];
      }
      assert listed[..|listed|] == listed;
    }

    /** mapUpstreamPoolToPolicies, over a listing of the policies in the pool's namespace. */
    method MapUpstreamPoolToPolicies(pool: Key, listed: seq<Key>) returns (requests: seq<Key>)
      requires forall k :: k in listed <==> k in policies && k.ns == pool.ns
      ensures forall k :: k in requests <==>
              k in policies && k.ns == pool.ns && TrimSpace(policies[k].spec.upstreamRef) == pool.name
    {
      hide TrimSpace;
      requests := [];
      for i := 0 to |listed|
        invariant forall k :: k in requests <==>
                  k in listed[..i] && TrimSpace(policies[k].spec.upstreamRef) == pool.name
      {
        assert listed[..i + 1] == listed[..i] + [listed[i]];
        if TrimSpace(policies[listed[i]].spec.upstreamRef) == pool.name {
          requests := requests + [listed[i]];
        }
      }
      assert listed[..|listed|] == listed;
    }

    /** mapCacheProfileToPolicies, likewise. */
    method MapCacheProfileToPolicies(profile: Key, listed: seq<Key>) returns (requests: seq<Key>)
      requires forall k :: k in listed <==> k in policies && k.ns == profile.ns
      ensures forall k :: k in requests <==>
              k in policies && k.ns == profile.ns && TrimSpace(policies[k].spec.cacheRef) == profile.name
    {
      hide TrimSpace;
      requests := [];
      for i := 0 to |listed|
        invariant forall k :: k in requests <==>
                  k in listed[..i] && TrimSpace(policies[k].spec.cacheRef) == profile.name
      {
        assert listed[..i + 1] == listed[..i] + [listed[i]];
        if TrimSpace(policies[listed[i]].spec.cacheRef) == profile.name {
          requests := requests + [listed[i]];
        }
      }
      assert listed[..|listed|] == listed;
    }
  }

  lemma ReleasedKeys(nss: Namespaces, p: Policy)
    ensures Released(nss, p).Keys == nss.Keys
  {
    hide Owner, Others, Selected;
  }

  lemma ClearedKeys(nss: Namespaces, uid: string)
    ensures ClearedState(nss, uid).Keys == nss.Keys
  {
    hide Owner, Others;
  }

  lemma ReleaseStarts(nss: Namespaces, p: Policy, pending: Namespaces)
    requires pending == map n | n in nss && Owner(nss[n]) == p.uid :: nss[n]
    ensures Fresh(nss, pending, p.uid) && UpTo(nss, nss, Released(nss, p), pending.Keys)
  {
    hide Owner, Others, Selected;
  }

  lemma ClearStarts(nss: Namespaces, uid: string, pending: Namespaces)
    requires pending == map n | n in nss && Owner(nss[n]) == uid :: nss[n]
    ensures Fresh(nss, pending, uid) && UpTo(nss, nss, ClearedState(nss, uid), pending.Keys)
  {
    hide Owner, Others;
  }

  /** One pending namespace leaves the list, rewritten or, if that makes no difference, as it is. */
  lemma ReleasesOne(nss: Namespaces, before: Namespaces, after: Namespaces, pending: Namespaces, uid: string, n: string)
    requires Fresh(before, pending, uid) && UpTo(nss, before, after, pending.Keys) && n in pending
    ensures n in nss && n in before && n in after && Owner(before[n]) == uid
    ensures nss[n] == before[n] == pending[n]
    ensures Fresh(before, pending - {n}, uid)
    ensures UpTo(nss[n := after[n]], before, after, (pending - {n}).Keys)
    ensures before[n] == after[n] ==> UpTo(nss, before, after, (pending - {n}).Keys)
  {
    hide Owner;
  }

  lemma ReleasedAt(nss: Namespaces, p: Policy, n: string)
    requires n in nss && Owner(nss[n]) == p.uid
    ensures n in Released(nss, p)
    ensures Released(nss, p)[n] == if n in Selected(p.spec) then nss[n] else RemovePatch(nss[n], nss[n])
  {
    hide Owner, Others, Selected, RemovePatch, Coherent;
    RemoveFresh(nss[n]);
  }

  lemma ClearedAt(nss: Namespaces, uid: string, n: string)
    requires n in nss && Owner(nss[n]) == uid
    ensures n in ClearedState(nss, uid) && ClearedState(nss, uid)[n] == RemovePatch(nss[n], nss[n])
  {
    hide Owner, Others, RemovePatch, Coherent;
    RemoveFresh(nss[n]);
  }

  lemma UpToBetween(nss: Namespaces, before: Namespaces, after: Namespaces, pending: set<string>)
    requires UpTo(nss, before, after, pending)
    ensures Between(nss, before, after) && (pending == {} ==> nss == after)
  {
  }

  lemma StoppedPartly(base: Namespaces, nss: Namespaces, key: Key, p: Policy, todo: set<string>, count: nat)
    requires AppliedUpTo(base, nss, key, p, todo, count)
    ensures nss.Keys == base.Keys
    ensures forall m :: m in base ==>
            (m in Selected(p.spec) && nss[m] == Annotate(base[m], key, p)) || nss[m] == base[m]
  {
    hide Owner, Annotate, Conflicts, Selected;
  }

  lemma StillSelected(base: Namespaces, nss: Namespaces, key: Key, p: Policy, todo: set<string>, count: nat, n: string)
    requires AppliedUpTo(base, nss, key, p, todo, count) && n in todo
    ensures n in Selected(p.spec)
  {
    hide Annotate, Conflicts, Selected;
  }

  lemma TakenConflicts(nss: Namespaces, p: Policy, n: string)
    requires n in nss && n in Selected(p.spec) && Conflicts(nss[n], p.uid)
    ensures Conflicted(nss, p) && Tells(nss, p, Taken(n, Holder(nss[n])))
  {
    hide Conflicts, Selected, Holder;
    assert n in Targets(nss, p);
  }

  lemma TellsStatus(nss: Namespaces, p: Policy, r: Enforced)
    requires r.Taken? && Tells(nss, p, r)
    ensures Conflicted(nss, p) && PolicyInvariants.TellsConflict(nss, p, BlockedBy(p.generation, r.name, r.holder))
  {
    hide Conflicts, Selected, Holder;
  }

  lemma ApplyFailsMeans(nss: Namespaces, n: string, key: Key, p: Policy, api: Api)
    ensures ApplyFails(nss, n, key, p, api) <==>
            api.read(n) || (n in nss && Annotate(nss[n], key, p) != nss[n] && api.patch(n))
  {
  }

  /** Releasing the unselected namespaces does not change what can fail at the selected ones. */
  lemma ReleasedApplyFails(nss: Namespaces, key: Key, p: Policy, api: Api)
    ensures ApplyingFails(Released(nss, p), key, p, api) <==> ApplyingFails(nss, key, p, api)
  {
    hide Annotate, Others, Owner, Selected;
    assert forall n :: n in Selected(p.spec) ==>
             (ApplyFails(Released(nss, p), n, key, p, api) <==> ApplyFails(nss, n, key, p, api));
  }

  /** The patch, by what was taken out of the copy and what is left of it. */
  lemma PatchSent(current: Annotations, copy: Annotations)
    ensures var removed := copy.Keys * POLICY_KEYS;
            RemovePatch(current, copy) ==
              if removed == {} then current else if |copy - removed| == 0 then map[] else current - removed
  {
    var rest := copy - (copy.Keys * POLICY_KEYS);
    assert rest.Keys == copy.Keys - POLICY_KEYS;
    assert |rest| == 0 <==> rest.Keys == {};
  }
}
