/** ExternalDNSPolicy objects, the validation of their references, and the four annotations by which a
    policy owns a namespace. */
module Policies {
  import opened Text
  import opened Objects

  const OWNER_UID := "dns.astradns.com/external-policy-owner-uid"
  const POLICY_NAME := "dns.astradns.com/external-policy-name"
  const UPSTREAM_REF := "dns.astradns.com/external-policy-upstream-pool"
  const CACHE_REF := "dns.astradns.com/external-policy-cache-profile"

  const POLICY_KEYS := {OWNER_UID, POLICY_NAME, UPSTREAM_REF, CACHE_REF}

  datatype Reason = Enforced | ValidationFailed | EnforcementFailed

  /** What a condition's message says: of two conditions for one generation of a spec, the texts are the same
      exactly if these are. */
  datatype Message = Fine | BadReference(error: ReferenceError) | HeldBy(name: string,
      holder: string) | CallError(text: string)

  /** The Validated condition, without its times; `generation` is its observed generation. */
  datatype Condition = Condition(validated: bool, reason: Reason, message: Message, generation: int)

  datatype Status = Status(condition: Option<Condition>, generation: int, applied: int)

  datatype PolicySpec = PolicySpec(selector: seq<string>, upstreamRef: string, cacheRef: string)

  /** `generation` counts the changes of the spec; `finalizer`: the policy's finalizer is set; `deleting`: it
      has a deletion timestamp. */
  datatype Policy = Policy(
    uid: string, spec: PolicySpec, generation: int, finalizer: bool, deleting: bool, status: Status)

  // the statuses that setValidatedCondition writes, for a policy of generation `g`

  function Invalid(g: int, e: ReferenceError): Status {
    Status(Some(Condition(false, ValidationFailed, BadReference(e), g)), g, 0)
  }

  /** In conflict at namespace `n`, whose annotations are `a`. */
  function Blocked(g: int, n: string, a: Annotations): Status {
    BlockedBy(g, n, Holder(a))
  }

  function BlockedBy(g: int, n: string, holder: string): Status {
    Status(Some(Condition(false, EnforcementFailed, HeldBy(n, holder), g)), g, 0)
  }

  function Broken(g: int, text: string): Status {
    Status(Some(Condition(false, EnforcementFailed, CallError(text), g)), g, 0)
  }

  function Enforcement(g: int, applied: nat): Status {
    Status(Some(Condition(true, Enforced, Fine, g)), g, applied)
  }

  type Annotations = map<string, string>

  type Namespaces = map<string, Annotations>

  /** The verdicts of validation.IsDNS1123Label and validation.IsDNS1123Subdomain. */
  datatype Names = Names(isLabel: string -> bool, isSubdomain: string -> bool)

  function Selected(spec: PolicySpec): set<string> {
    set i | 0 <= i < |spec.selector| :: TrimSpace(spec.selector[i])
  }

  // ---------------------------------------------------------------- references

  predicate NamespaceNameOk(raw: string, names: Names) {
    TrimSpace(raw) != "" && raw == TrimSpace(raw) && names.isLabel(raw)
  }

  datatype ReferenceError =
    | NoNamespaces
    | NamespaceInvalid(index: nat)
    | NamespaceDuplicated(index: nat)
    | UpstreamRefInvalid
    | UpstreamPoolMissing
    | UpstreamPoolUnknown(text: string)  // its lookup failed
    | CacheRefInvalid
    | CacheProfileMissing
    | CacheProfileUnknown(text: string)

  ghost predicate SelectorOk(selector: seq<string>, names: Names) {
    && selector != []
    && (forall i :: 0 <= i < |selector| ==> NamespaceNameOk(selector[i], names))
    && (forall i, j :: 0 <= i < j < |selector| ==> selector[i] != selector[j])
  }

  /** The first thing wrong with the selector from position `i` on. */
  function SelectorErrorFrom(selector: seq<string>, i: nat, names: Names): Option<ReferenceError>
    requires i <= |selector|
    decreases |selector| - i
  {
    if i == |selector| then None
    else if !NamespaceNameOk(selector[i], names) then Some(NamespaceInvalid(i))
    else if selector[i] in selector[..i] then Some(NamespaceDuplicated(i))
    else SelectorErrorFrom(selector, i + 1, names)
  }

  function SelectorError(selector: seq<string>, names: Names): Option<ReferenceError> {
    if selector == [] then Some(NoNamespaces) else SelectorErrorFrom(selector, 0, names)
  }

  lemma {:induction false} SelectorErrorFromMeans(selector: seq<string>, i: nat, names: Names)
    requires i <= |selector|
    ensures var e := SelectorErrorFrom(selector, i, names);
            && (e.None? <==> forall k :: i <= k < |selector| ==>
                  NamespaceNameOk(selector[k], names) && selector[k] !in selector[..k])
            && (e.Some? ==> e.value.NamespaceInvalid? || e.value.NamespaceDuplicated?)
    decreases |selector| - i
  {
    hide NamespaceNameOk;
    if i < |selector| {
      SelectorErrorFromMeans(selector, i + 1, names);
    }
  }

  /** On the raw names: accepted are non-empty lists of distinct, trimmed, non-empty DNS-1123 labels; what is
      reported otherwise is the first entry at fault, and a bad name rather than a repeated one. */
  lemma SelectorErrorMeans(selector: seq<string>, names: Names)
    ensures SelectorError(selector, names).None? <==> SelectorOk(selector, names)
    ensures SelectorError(selector, names).None? <==>
            && selector != []
            && (forall i :: 0 <= i < |selector| ==>
                  selector[i] != "" && Trimmed(selector[i]) && names.isLabel(selector[i]))
            && (forall i, j :: 0 <= i < j < |selector| ==> selector[i] != selector[j])
    ensures SelectorError(selector, names) == Some(NoNamespaces) <==> selector == []
  {
    SelectorErrorOk(selector, names);
    SelectorErrorFromMeans(selector, 0, names);
    forall i | 0 <= i < |selector|
      ensures NamespaceNameOk(selector[i], names) <==>
              selector[i] != "" && Trimmed(selector[i]) && names.isLabel(selector[i])
    {
      TrimSpaceFacts(selector[i]);
    }
  }

  lemma {:induction false} SelectorErrorAt(selector: seq<string>, i: nat, k: nat, names: Names)
    requires i <= k < |selector|
    requires forall m :: i <= m < k ==> NamespaceNameOk(selector[m], names) && selector[m] !in selector[..m]
    requires !NamespaceNameOk(selector[k], names) || selector[k] in selector[..k]
    ensures SelectorErrorFrom(selector, i, names) ==
            Some(if NamespaceNameOk(selector[k], names) then NamespaceDuplicated(k) else NamespaceInvalid(k))
    decreases k - i
  {
    hide NamespaceNameOk;
    if i < k {
      SelectorErrorAt(selector, i + 1, k, names);
    }
  }

  lemma SelectorErrorOk(selector: seq<string>, names: Names)
    ensures SelectorError(selector, names).None? <==> SelectorOk(selector, names)
  {
    hide NamespaceNameOk;
    SelectorErrorFromMeans(selector, 0, names);
    if selector != [] && SelectorError(selector, names).None? {
      forall i, j | 0 <= i < j < |selector| ensures selector[i] != selector[j] {
        assert selector[j] !in selector[..j] && selector[..j][i] == selector[i];
      }
    }
    if SelectorOk(selector, names) {
      forall k | 0 <= k < |selector| ensures NamespaceNameOk(selector[k], names) && selector[k] !in selector[..k] {
      }
    }
  }

  /** validatePolicyRefName: None for an error, Some("") for a reference that is allowed to be absent. */
  function RefName(raw: string, required: bool, names: Names): (r: Option<string>)
    ensures r.Some? ==> r.value == raw
    ensures r.Some? <==>
            (raw == "" && !required) || (TrimSpace(raw) == raw != "" && names.isSubdomain(raw))
  {
    var trimmed := TrimSpace(raw);
    if trimmed == "" then (if !required && raw == "" then Some("") else None)
    else if raw == trimmed && names.isSubdomain(trimmed) then Some(trimmed)
    else None
  }

  /** The first part of validateReferences, up to the lookup of the upstream pool. */
  function PoolRefError(ns: string, spec: PolicySpec, pools: set<Key>, names: Names): Option<ReferenceError> {
    if SelectorError(spec.selector, names).Some? then SelectorError(spec.selector, names)
    else if RefName(spec.upstreamRef, true, names).None? then Some(UpstreamRefInvalid)
    else if Key(ns, spec.upstreamRef) !in pools then Some(UpstreamPoolMissing)
    else None
  }

  /** The rest of it. */
  function ProfileRefError(ns: string, spec: PolicySpec, profiles: set<Key>, names: Names): Option<ReferenceError> {
    if RefName(spec.cacheRef, false, names).None? then Some(CacheRefInvalid)
    else if spec.cacheRef != "" && Key(ns, spec.cacheRef) !in profiles then Some(CacheProfileMissing)
    else None
  }

  function RefError(ns: string, spec: PolicySpec, pools: set<Key>, profiles: set<Key>,
      names: Names): Option<ReferenceError> {
    var e := PoolRefError(ns, spec, pools, names);
    if e.Some? then e else ProfileRefError(ns, spec, profiles, names)
  }

  predicate PoolRefOk(ns: string, spec: PolicySpec, pools: set<Key>, names: Names) {
    PoolRefError(ns, spec, pools, names).None?
  }

  predicate ProfileRefOk(ns: string, spec: PolicySpec, profiles: set<Key>, names: Names) {
    ProfileRefError(ns, spec, profiles, names).None?
  }

  predicate ReferencesOk(ns: string, spec: PolicySpec, pools: set<Key>, profiles: set<Key>, names: Names) {
    PoolRefOk(ns, spec, pools, names) && ProfileRefOk(ns, spec, profiles, names)
  }

  /** When references are valid, and when each error is the one reported. */
  lemma RefErrorMeans(ns: string, spec: PolicySpec, pools: set<Key>, profiles: set<Key>, names: Names)
    ensures var e := RefError(ns, spec, pools, profiles, names);
            var selectorOk := SelectorOk(spec.selector, names);
            var upstreamOk := RefName(spec.upstreamRef, true, names).Some?;
            var cacheOk := RefName(spec.cacheRef, false, names).Some?;
            var poolOk := selectorOk && upstreamOk && Key(ns, spec.upstreamRef) in pools;
            && (e.None? <==> ReferencesOk(ns, spec, pools, profiles, names))
            && (PoolRefOk(ns, spec, pools, names) <==> poolOk)
            && (e.None? <==> poolOk && cacheOk && (spec.cacheRef == "" || Key(ns, spec.cacheRef) in profiles))
            && (e == Some(UpstreamRefInvalid) <==> selectorOk && !upstreamOk)
            && (e == Some(UpstreamPoolMissing) <==> selectorOk && upstreamOk && !poolOk)
            && (e == Some(CacheRefInvalid) <==> poolOk && !cacheOk)
            && (e == Some(CacheProfileMissing) <==>
                  poolOk && cacheOk && spec.cacheRef != "" && Key(ns, spec.cacheRef) !in profiles)
            && (e.Some? ==> !e.value.UpstreamPoolUnknown? && !e.value.CacheProfileUnknown?)
  {
    hide SelectorErrorFrom, SelectorOk;
    SelectorErrorMeans(spec.selector, names);
    SelectorErrorFromMeans(spec.selector, 0, names);
  }

  method ValidateSelector(selector: seq<string>, names: Names) returns (e: Option<ReferenceError>)
    ensures e == SelectorError(selector, names)
    ensures e.None? <==> SelectorOk(selector, names)
  {
    hide NamespaceNameOk;
    SelectorErrorMeans(selector, names);
    if |selector| == 0 {
      return Some(NoNamespaces);
    }
    var seen: set<string> := {};
    for i := 0 to |selector|
      invariant SelectorError(selector, names) == SelectorErrorFrom(selector, i, names)
      invariant forall n :: n in seen <==> n in selector[..i]
    {
      if !NamespaceNameOk(selector[i], names) {
        return Some(NamespaceInvalid(i));
      }
      if selector[i] in seen {
        return Some(NamespaceDuplicated(i));
      }
      seen := seen + {selector[i]};
      assert selector[..i + 1] == selector[..i] + [selector[i]];
    }
    e := None;
  }

  /** What validateReferences reports when the lookup of the pool or of the profile may fail with an error: such
      an error takes the place of the verdict on the object's existence. */
  function Verdict(ns: string, spec: PolicySpec, pools: set<Key>, profiles: set<Key>, names: Names,
                   poolError: Option<string>, profileError: Option<string>): Option<ReferenceError> {
    var e := PoolRefError(ns, spec, pools, names);
    if poolError.Some? && (e.None? || e.value.UpstreamPoolMissing?) then Some(UpstreamPoolUnknown(poolError.value))
    else if e.Some? then e
    else
      var f := ProfileRefError(ns, spec, profiles, names);
      if profileError.Some? && spec.cacheRef != "" && (f.None? || f.value.CacheProfileMissing?) then
        Some(CacheProfileUnknown(profileError.value))
      else f
  }

  /** validateReferences, against the pools and profiles that exist. `poolError`, `profileError`: the lookup
      of the pool or profile fails, with this error. */
  method ValidateReferences(ns: string, spec: PolicySpec, pools: set<Key>, profiles: set<Key>, names: Names,
                            poolError: Option<string>, profileError: Option<string>)
    returns (e: Option<ReferenceError>)
    ensures e == Verdict(ns, spec, pools, profiles, names, poolError, profileError)
    ensures e.None? <==>
            && ReferencesOk(ns, spec, pools, profiles, names) && poolError.None?
            && (profileError.Some? ==> spec.cacheRef == "")
    ensures e.Some? && e.value.UpstreamPoolUnknown? <==>
            SelectorOk(spec.selector, names) && RefName(spec.upstreamRef, true, names).Some? && poolError.Some?
    ensures e.Some? && e.value.UpstreamPoolUnknown? ==> poolError == Some(e.value.text)
    ensures e.Some? && e.value.CacheProfileUnknown? <==>
            && PoolRefOk(ns, spec, pools, names) && poolError.None?
            && RefName(spec.cacheRef, false, names).Some? && spec.cacheRef != "" && profileError.Some?
    ensures e.Some? && e.value.CacheProfileUnknown? ==> profileError == Some(e.value.text)
    ensures e.Some? && !e.value.UpstreamPoolUnknown? && !e.value.CacheProfileUnknown? ==>
              e == RefError(ns, spec, pools, profiles, names)
  {
    hide SelectorOk, SelectorError, RefName;
    RefErrorMeans(ns, spec, pools, profiles, names);
    e := ValidateSelector(spec.selector, names);
    if e.Some? {
      return;
    }
    var upstream := RefName(spec.upstreamRef, true, names);
    if upstream.None? {
      return Some(UpstreamRefInvalid);
    }
    if poolError.Some? {
      return Some(UpstreamPoolUnknown(poolError.value));
    }
    if Key(ns, upstream.value) !in pools {
      return Some(UpstreamPoolMissing);
    }
    var cache := RefName(spec.cacheRef, false, names);
    if cache.None? {
      return Some(CacheRefInvalid);
    }
    if cache.value == "" {
      return None;
    }
    if profileError.Some? {
      return Some(CacheProfileUnknown(profileError.value));
    }
    if Key(ns, cache.value) !in profiles {
      return Some(CacheProfileMissing);
    }
    e := None;
  }

  // ---------------------------------------------------------------- annotations

  function Get(a: Annotations, k: string): string { if k in a then a[k] else "" }

  function Owner(a: Annotations): string { Get(a, OWNER_UID) }

  /** Sets a key whose value differs; reading an absent key gives "". */
  function Put(a: Annotations, k: string, v: string): Annotations {
    if Get(a, k) != v then a[k := v] else a
  }

  function QualifiedName(key: Key): string { key.ns + "/" + key.name }

  /** Whom a conflict names: the owner's qualified name, or its UID if the namespace has no name. */
  function Holder(a: Annotations): string {
    if Get(a, POLICY_NAME) == "" then Owner(a) else Get(a, POLICY_NAME)
  }

  /** What stands in the way of updateNamespacePolicyAnnotations: another non-empty owner. */
  predicate Conflicts(a: Annotations, uid: string) { Owner(a) != "" && Owner(a) != uid }

  /** updateNamespacePolicyAnnotations, where no other policy owns the namespace. */
  function Annotate(a: Annotations, key: Key, p: Policy): Annotations {
    var named := Put(Put(Put(a, OWNER_UID, p.uid), POLICY_NAME, QualifiedName(key)), UPSTREAM_REF, p.spec.upstreamRef);
    var cache := TrimSpace(p.spec.cacheRef);
    if cache == "" then named - {CACHE_REF} else Put(named, CACHE_REF, cache)
  }

  /** The annotations that are not the operator's. */
  function Others(a: Annotations): Annotations { a - POLICY_KEYS }

  /** removeNamespacePolicyAnnotations: the merge patch that takes the policy keys out of `copy`, the
      namespace as it was listed, applied to `current`. When nothing else is left in the copy, the patch
      sets the whole annotation map to null. */
  function RemovePatch(current: Annotations, copy: Annotations): Annotations {
    if copy.Keys * POLICY_KEYS == {} then current
    else if copy.Keys <= POLICY_KEYS then map[]
    else current - (copy.Keys * POLICY_KEYS)
  }

  /** The annotations carry exactly what the policy's current spec demands. */
  predicate Carries(a: Annotations, key: Key, p: Policy) {
    && Owner(a) == p.uid && Get(a, POLICY_NAME) == QualifiedName(key) && Get(a, UPSTREAM_REF) == p.spec.upstreamRef
    && (if TrimSpace(p.spec.cacheRef) == "" then CACHE_REF !in a else Get(a, CACHE_REF) == TrimSpace(p.spec.cacheRef))
  }

  /** Owner, name and upstream are present together or not at all, and the cache key only with them. */
  predicate Coherent(a: Annotations) {
    && (OWNER_UID in a <==> POLICY_NAME in a) && (OWNER_UID in a <==> UPSTREAM_REF in a)
    && (CACHE_REF in a ==> OWNER_UID in a)
    && (OWNER_UID in a ==> a[OWNER_UID] != "")
  }

  lemma AnnotateMeans(a: Annotations, key: Key, p: Policy)
    ensures Carries(Annotate(a, key, p), key, p)
    ensures Carries(a, key, p) ==> Annotate(a, key, p) == a
    ensures Coherent(a) && p.uid != "" && p.spec.upstreamRef != "" ==> Coherent(Annotate(a, key, p))
  {
    hide TrimSpace, Others;
    assert QualifiedName(key) != "";
  }

  lemma AnnotateKeepsOthers(a: Annotations, key: Key, p: Policy)
    ensures Others(Annotate(a, key, p)) == Others(a)
  {
    hide TrimSpace, QualifiedName;
  }

  /** Taking the keys out of an unchanged namespace leaves all its other annotations and no owner. */
  lemma RemoveFresh(a: Annotations)
    ensures RemovePatch(a, a) == Others(a) && Owner(Others(a)) == "" && Coherent(Others(a))
  {
    assert a - (a.Keys * POLICY_KEYS) == Others(a);
    if a.Keys * POLICY_KEYS == {} {
      forall k | k in POLICY_KEYS ensures k !in a {
        assert k in a.Keys * POLICY_KEYS <==> k in a.Keys;
      }
      assert Others(a) == a;
    }
    if a.Keys <= POLICY_KEYS {
      assert Others(a).Keys == {};
    }
  }

  /** A removal computed from a stale copy keeps the user's annotations exactly when the copy had one of
      them or there is none to lose. */
  lemma RemoveKeepsOthersIff(current: Annotations, copy: Annotations)
    requires OWNER_UID in copy && (current.Keys * POLICY_KEYS <= copy.Keys)
    ensures Owner(RemovePatch(current, copy)) == ""
    ensures Others(RemovePatch(current, copy)) == Others(current) <==> Others(copy) != map[] || Others(current) == map[]
  {
    assert OWNER_UID in copy.Keys * POLICY_KEYS;
    if copy.Keys <= POLICY_KEYS {
      assert Others(copy) == map[] && Others(map[]) == map[];
    } else {
      var k :| k in copy.Keys && k !in POLICY_KEYS;
      assert k in Others(copy);
      assert Others(current - (copy.Keys * POLICY_KEYS)) == Others(current);
    }
  }

  // ---------------------------------------------------------------- names, values and fields as users see them

  /** The fields of the statuses. */
  lemma StatusesMean(g: int, e: ReferenceError, n: string, a: Annotations, text: string, applied: nat)
    ensures forall status :: status in {Invalid(g, e), Blocked(g, n, a), Broken(g, text), Enforcement(g, applied)} ==>
              status.condition.Some? && status.generation == status.condition.value.generation == g
    ensures var c := Invalid(g, e).condition.value;
            !c.validated && c.reason == ValidationFailed && c.message == BadReference(e) && Invalid(g, e).applied == 0
    ensures var c := Blocked(g, n, a).condition.value;
            && !c.validated && c.reason == EnforcementFailed && Blocked(g, n, a).applied == 0
            && c.message == HeldBy(n, Holder(a))
    ensures var c := Broken(g, text).condition.value;
            !c.validated && c.reason == EnforcementFailed && c.message == CallError(text)
                && Broken(g, text).applied == 0
    ensures var c := Enforcement(g, applied).condition.value;
            c.validated && c.reason == Enforced && Enforcement(g, applied).applied == applied
  {
  }

  /** A namespace is selected by any entry that is its name but for white space around it. */
  lemma SelectedMeans(spec: PolicySpec, i: nat, j: nat, k: nat)
    requires i < |spec.selector| && j <= k <= |spec.selector[i]|
    requires AllSpace(spec.selector[i][..j]) && AllSpace(spec.selector[i][k..]) && Trimmed(spec.selector[i][j..k])
    ensures spec.selector[i][j..k] in Selected(spec)
    ensures forall n :: n in Selected(spec) ==> exists m :: 0 <= m < |spec.selector| && TrimSpace(spec.selector[m]) == n
  {
    TrimSpaceMeans(spec.selector[i], j, k);
  }

  /** A namespace is taken if the owner annotation is there with another, non-empty UID; the conflict names the
      owner's name annotation, or its UID where there is none. */
  lemma ConflictsMean(a: Annotations, uid: string)
    ensures var owner, name := "dns.astradns.com/external-policy-owner-uid", "dns.astradns.com/external-policy-name";
            && (Conflicts(a, uid) <==> owner in a && a[owner] != "" && a[owner] != uid)
            && (owner in a ==> Owner(a) == a[owner]) && (owner !in a ==> Owner(a) == "")
            && (name in a && a[name] != "" ==> Holder(a) == a[name])
            && (name !in a || a[name] == "" ==> Holder(a) == Owner(a))
  {
  }

  /** The namespace and the name can be read off a qualified name, because neither contains a slash. */
  lemma QualifiedNameMeans(key: Key, other: Key)
    ensures var q := QualifiedName(key);
            |q| == |key.ns| + 1 + |key.name| && q[..|key.ns|] == key.ns && q[|key.ns|] == '/'
                && q[|key.ns| + 1..] == key.name
    ensures '/' !in key.ns && '/' !in other.ns && QualifiedName(key) == QualifiedName(other) ==> key == other
  {
    SlashFirst(key);
    SlashFirst(other);
    var q := QualifiedName(key);
    if '/' !in key.ns && '/' !in other.ns && q == QualifiedName(other) {
      assert |key.ns| == |other.ns|;
      assert key.ns == q[..|key.ns|] && key.name == q[|key.ns| + 1..];
    }
  }

  lemma SlashFirst(key: Key)
    ensures QualifiedName(key)[|key.ns|] == '/'
    ensures '/' !in key.ns ==> forall i :: 0 <= i < |key.ns| ==> QualifiedName(key)[i] != '/'
  {
  }

  /** The four annotations, as they are written to a namespace that has none. */
  lemma AnnotationsWritten(key: Key, p: Policy)
    requires p.uid != "" && p.spec.upstreamRef != ""
    ensures var a := Annotate(map[], key, p);
            && "dns.astradns.com/external-policy-owner-uid" in a
            && a["dns.astradns.com/external-policy-owner-uid"] == p.uid
            && "dns.astradns.com/external-policy-name" in a
            && a["dns.astradns.com/external-policy-name"] == key.ns + "/" + key.name
            && "dns.astradns.com/external-policy-upstream-pool" in a
            && a["dns.astradns.com/external-policy-upstream-pool"] == p.spec.upstreamRef
            && ("dns.astradns.com/external-policy-cache-profile" in a <==> TrimSpace(p.spec.cacheRef) != "")
            && (TrimSpace(p.spec.cacheRef) != "" ==>
                  a["dns.astradns.com/external-policy-cache-profile"] == TrimSpace(p.spec.cacheRef))
            && |a| == if TrimSpace(p.spec.cacheRef) == "" then 3 else 4
  {
    hide TrimSpace;
    var a := Annotate(map[], key, p);
    assert key.ns + "/" + key.name != "";
    if TrimSpace(p.spec.cacheRef) == "" {
      assert a.Keys == {OWNER_UID, POLICY_NAME, UPSTREAM_REF};
    } else {
      assert a.Keys == POLICY_KEYS;
    }
    assert |a| == |a.Keys|;
  }
}
