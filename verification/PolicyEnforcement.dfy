/** What enforcing and clearing a policy do to the namespaces. */
module PolicyEnforcement {
  import opened Text
  import opened Objects
  import opened Policies

  /** Who owns `n`; nobody owns a namespace that does not exist. */
  function OwnerAt(nss: Namespaces, n: string): string { if n in nss then Owner(nss[n]) else "" }

  /** listManagedPolicyNamespaces; a policy's UID is never empty. */
  function Managed(nss: Namespaces, uid: string): set<string> { set n | n in nss && Owner(nss[n]) == uid }

  /** The listed copies are the policy's namespaces, as they are. */
  ghost predicate Fresh(nss: Namespaces, pending: Namespaces, uid: string) {
    forall n :: n in pending ==> n in nss && pending[n] == nss[n] && Owner(nss[n]) == uid
  }

  /** The selected namespaces that exist. */
  function Targets(nss: Namespaces, p: Policy): set<string> { Selected(p.spec) * nss.Keys }

  predicate Conflicted(nss: Namespaces, p: Policy) { exists n :: n in Targets(nss, p) && Conflicts(nss[n], p.uid) }

  /** After a successful enforcement. */
  function EnforcedState(nss: Namespaces, key: Key, p: Policy): Namespaces {
    map n | n in nss ::
      if n in Selected(p.spec) then Annotate(nss[n], key, p)
      else if Owner(nss[n]) == p.uid then Others(nss[n])
      else nss[n]
  }

  /** After enforcePolicy's first loop: nothing outside the selection is owned any more. */
  function Released(nss: Namespaces, p: Policy): Namespaces {
    map n | n in nss :: if n !in Selected(p.spec) && Owner(nss[n]) == p.uid then Others(nss[n]) else nss[n]
  }

  /** After clearPolicyEnforcement. */
  function ClearedState(nss: Namespaces, uid: string): Namespaces {
    map n | n in nss :: if Owner(nss[n]) == uid then Others(nss[n]) else nss[n]
  }

  // ---------------------------------------------------------------- the order of the selected set does not matter

  datatype Attempt = Attempt(nss: Namespaces, applied: nat, ok: bool)

  /** enforcePolicy's second loop, for one iteration order of the selected set. */
  function ApplyInOrder(nss: Namespaces, key: Key, p: Policy, order: seq<string>): Attempt {
    if order == [] then Attempt(nss, 0, true)
    else if order[0] !in nss then ApplyInOrder(nss, key, p, order[1..])
    else if Conflicts(nss[order[0]], p.uid) then Attempt(nss, 0, false)
    else
      var rest := ApplyInOrder(nss[order[0] := Annotate(nss[order[0]], key, p)], key, p, order[1..]);
      rest.(applied := rest.applied + 1)
  }

  /** enforcePolicy */
  function Enforce(nss: Namespaces, key: Key, p: Policy, order: seq<string>): Attempt {
    ApplyInOrder(Released(nss, p), key, p, order)
  }

  ghost predicate IterationOrder(order: seq<string>, all: set<string>) {
    && (forall i, j :: 0 <= i < j < |order| ==> order[i] != order[j])
    && (set n | n in order) == all
  }

  ghost predicate NoneConflicts(nss: Namespaces, order: seq<string>, uid: string) {
    forall n :: n in order && n in nss ==> !Conflicts(nss[n], uid)
  }

  /** How many of the names stand for existing namespaces. */
  function CountExisting(nss: Namespaces, order: seq<string>): nat {
    if order == [] then 0 else (if order[0] in nss then 1 else 0) + CountExisting(nss, order[1..])
  }

  /** Ticking one name off a to-do list adds it to the visited ones, if it exists. */
  lemma OneMoreVisited(all: set<string>, todo: set<string>, existing: set<string>, n: string)
    requires n in todo && todo <= all
    ensures |(all - (todo - {n})) * existing| == |(all - todo) * existing| + (if n in existing then 1 else 0)
  {
    var before, after := (all - todo) * existing, (all - (todo - {n})) * existing;
    assert n !in before;
    assert after == if n in existing then before + {n} else before;
  }

  /** All selected namespaces but those in `todo` have been annotated, without a conflict ... */
  ghost predicate AnnotatedUpTo(base: Namespaces, nss: Namespaces, key: Key, p: Policy, todo: set<string>) {
    && nss.Keys == base.Keys
    && (forall n :: n in base ==>
          nss[n] == if n in Selected(p.spec) && n !in todo then Annotate(base[n], key, p) else base[n])
    && (forall n :: n in Selected(p.spec) && n !in todo && n in base ==> !Conflicts(base[n], p.uid))
  }

  /** ... and counted. */
  ghost predicate AppliedUpTo(base: Namespaces, nss: Namespaces, key: Key, p: Policy, todo: set<string>, applied: nat) {
    && todo <= Selected(p.spec) && AnnotatedUpTo(base, nss, key, p, todo)
    && applied == |(Selected(p.spec) - todo) * base.Keys|
  }

  lemma AnnotatedNext(base: Namespaces, nss: Namespaces, key: Key, p: Policy, todo: set<string>, n: string)
    requires AnnotatedUpTo(base, nss, key, p, todo) && n in todo && n in Selected(p.spec)
    ensures (n in nss <==> n in base) && (n in nss ==> nss[n] == base[n])
    ensures n in nss && !Conflicts(nss[n], p.uid) ==>
              AnnotatedUpTo(base, nss[n := Annotate(nss[n], key, p)], key, p, todo - {n})
    ensures n !in nss ==> AnnotatedUpTo(base, nss, key, p, todo - {n})
  {
    hide Selected, Annotate, Conflicts;
    assert n in nss.Keys <==> n in base.Keys;
  }

  lemma AppliedStart(base: Namespaces, key: Key, p: Policy)
    ensures AppliedUpTo(base, base, key, p, Selected(p.spec), 0)
  {
    hide Selected, Annotate, Conflicts;
    assert (Selected(p.spec) - Selected(p.spec)) * base.Keys == {};
  }

  lemma AppliedNext(base: Namespaces, nss: Namespaces, key: Key, p: Policy, todo: set<string>, applied: nat, n: string)
    requires AppliedUpTo(base, nss, key, p, todo, applied) && n in todo
    ensures (n in nss <==> n in base) && (n in nss ==> nss[n] == base[n])
    ensures n in nss && !Conflicts(nss[n], p.uid) ==>
              AppliedUpTo(base, nss[n := Annotate(nss[n], key, p)], key, p, todo - {n}, applied + 1)
    ensures n !in nss ==> AppliedUpTo(base, nss, key, p, todo - {n}, applied)
  {
    hide Selected, Annotate, Conflicts, AnnotatedUpTo;
    AnnotatedNext(base, nss, key, p, todo, n);
    OneMoreVisited(Selected(p.spec), todo, base.Keys, n);
  }

  lemma AppliedEnd(base: Namespaces, nss: Namespaces, key: Key, p: Policy, applied: nat)
    requires AppliedUpTo(base, nss, key, p, {}, applied)
    ensures applied == |Targets(base, p)| && !Conflicted(base, p)
    ensures nss.Keys == base.Keys
    ensures forall n :: n in base ==> nss[n] == if n in Selected(p.spec) then Annotate(base[n], key, p) else base[n]
  {
    hide Selected, Annotate, Conflicts;
    assert Selected(p.spec) - {} == Selected(p.spec);
  }

  lemma {:induction false} SameKeysSameCount(a: Namespaces, b: Namespaces, order: seq<string>)
    requires a.Keys == b.Keys
    ensures CountExisting(a, order) == CountExisting(b, order)
  {
    if order != [] {
      SameKeysSameCount(a, b, order[1..]);
    }
  }

  lemma {:induction false} CountIsTargets(nss: Namespaces, order: seq<string>, all: set<string>)
    requires IterationOrder(order, all)
    ensures CountExisting(nss, order) == |all * nss.Keys|
  {
    if order == [] {
      assert all * nss.Keys == {};
    } else {
      var n, rest := order[0], order[1..];
      assert order == [n] + rest;
      assert IterationOrder(rest, all - {n});
      CountIsTargets(nss, rest, all - {n});
      if n in nss {
        assert all * nss.Keys == (all - {n}) * nss.Keys + {n};
      } else {
        assert all * nss.Keys == (all - {n}) * nss.Keys;
      }
    }
  }

  lemma {:induction false} ApplyOutcome(nss: Namespaces, key: Key, p: Policy, order: seq<string>)
    requires forall i, j :: 0 <= i < j < |order| ==> order[i] != order[j]
    ensures var r := ApplyInOrder(nss, key, p, order);
            && (r.ok <==> NoneConflicts(nss, order, p.uid))
            && r.nss.Keys == nss.Keys
            && (forall n :: n in nss && n !in order ==> r.nss[n] == nss[n])
            && (forall n :: n in nss && n in order ==>
                  r.nss[n] == Annotate(nss[n], key, p) || (!r.ok && r.nss[n] == nss[n]))
            && (r.ok ==> r.applied == CountExisting(nss, order))
  {
    hide Annotate, Conflicts;
    if order != [] {
      var n, rest := order[0], order[1..];
      assert order == [n] + rest;
      assert n !in rest;
      if n !in nss {
        ApplyOutcome(nss, key, p, rest);
      } else if !Conflicts(nss[n], p.uid) {
        var nss' := nss[n := Annotate(nss[n], key, p)];
        ApplyOutcome(nss', key, p, rest);
        SameKeysSameCount(nss, nss', rest);
      }
    }
  }

  lemma ReleasedTargets(nss: Namespaces, p: Policy, order: seq<string>)
    requires IterationOrder(order, Selected(p.spec))
    ensures NoneConflicts(Released(nss, p), order, p.uid) <==> !Conflicted(nss, p)
    ensures Released(nss, p).Keys == nss.Keys
  {
    hide Others, Conflicts, Owner, Selected;
    assert forall n :: n in order <==> n in Selected(p.spec);
  }

  /** For every iteration order: enforcement fails exactly when a selected existing namespace has another
      owner; if it succeeds, the namespaces and the count are the same for all orders. */
  lemma EnforceIgnoresOrder(nss: Namespaces, key: Key, p: Policy, order: seq<string>)
    requires IterationOrder(order, Selected(p.spec))
    ensures var r := Enforce(nss, key, p, order);
            && (r.ok <==> !Conflicted(nss, p))
            && (r.ok ==> r.nss == EnforcedState(nss, key, p) && r.applied == |Targets(nss, p)|)
  {
    hide Others, Conflicts, Owner, Selected, Annotate;
    ReleasedTargets(nss, p, order);
    ApplyOutcome(Released(nss, p), key, p, order);
    SameKeysSameCount(nss, Released(nss, p), order);
    CountIsTargets(nss, order, Selected(p.spec));
    assert forall n :: n in order <==> n in Selected(p.spec);
  }

  lemma OthersUnowned(a: Annotations)
    ensures Owner(Others(a)) == "" && Others(Others(a)) == Others(a)
  {
    RemoveFresh(a);
  }

  /** Ownership passes only between the policy and nobody. */
  predicate OwnMove(before: string, after: string, uid: string) {
    before == after || (before in {"", uid} && after in {"", uid})
  }

  lemma OneNamespace(a: Annotations, key: Key, p: Policy)
    ensures Owner(Others(a)) == "" && Others(Others(a)) == Others(a)
    ensures Carries(Annotate(a, key, p), key, p) && Owner(Annotate(a, key, p)) == p.uid
    ensures Others(Annotate(a, key, p)) == Others(a)
  {
    hide TrimSpace, Annotate;
    OthersUnowned(a);
    AnnotateMeans(a, key, p);
    AnnotateKeepsOthers(a, key, p);
  }

  lemma {:induction false} ForeignKept(nss: Namespaces, key: Key, p: Policy, order: seq<string>, n: string)
    requires n in nss && Conflicts(nss[n], p.uid)
    ensures var r := ApplyInOrder(nss, key, p, order); r.nss.Keys == nss.Keys && r.nss[n] == nss[n]
    decreases |order|
  {
    hide Annotate, Conflicts;
    if order != [] && order[0] !in nss {
      ForeignKept(nss, key, p, order[1..], n);
    } else if order != [] && !Conflicts(nss[order[0]], p.uid) {
      ForeignKept(nss[order[0] := Annotate(nss[order[0]], key, p)], key, p, order[1..], n);
    }
  }

  /** What enforcement, in any order and with any outcome, does to one namespace. */
  lemma EnforceAt(nss: Namespaces, key: Key, p: Policy, order: seq<string>, n: string)
    requires IterationOrder(order, Selected(p.spec)) && p.uid != "" && n in nss
    ensures var r := Enforce(nss, key, p, order);
            && n in r.nss
            && (n !in Selected(p.spec) ==> Owner(r.nss[n]) != p.uid)
            && (n in Selected(p.spec) && r.ok ==> Carries(r.nss[n], key, p))
            && OwnMove(Owner(nss[n]), Owner(r.nss[n]), p.uid)
            && Others(r.nss[n]) == Others(nss[n])
  {
    hide Others, Selected, Annotate, Owner;
    ApplyOutcome(Released(nss, p), key, p, order);
    OneNamespace(nss[n], key, p);
    assert n in order <==> n in Selected(p.spec) by { assert n in (set m | m in order) <==> n in Selected(p.spec); }
    if n in Selected(p.spec) && Conflicts(nss[n], p.uid) {
      ForeignKept(Released(nss, p), key, p, order, n);
    }
  }

  /** For every iteration order and outcome, the policy ends up owning selected existing namespaces only,
      all of them with its current values if enforcement succeeds; ownership passes only between it and
      nobody, and the users' annotations stay as they are. */
  lemma EnforceOwnership(nss: Namespaces, key: Key, p: Policy, order: seq<string>)
    requires IterationOrder(order, Selected(p.spec)) && p.uid != ""
    ensures var r := Enforce(nss, key, p, order);
            && r.nss.Keys == nss.Keys
            && Managed(r.nss, p.uid) <= Targets(nss, p)
            && (r.ok ==> Managed(r.nss, p.uid) == Targets(nss, p))
            && (forall n :: n in nss ==>
                  && (r.ok && n in Selected(p.spec) ==> Carries(r.nss[n], key, p))
                  && OwnMove(Owner(nss[n]), Owner(r.nss[n]), p.uid)
                  && Others(r.nss[n]) == Others(nss[n]))
  {
    hide Selected, Annotate, Others, Owner, OwnMove, Conflicts, Enforce;
    var r := Enforce(nss, key, p, order);
    EnforceKeys(nss, key, p, order);
    forall n | n in nss
      ensures n !in Selected(p.spec) ==> Owner(r.nss[n]) != p.uid
      ensures r.ok && n in Selected(p.spec) ==> Carries(r.nss[n], key, p) && Owner(r.nss[n]) == p.uid
      ensures OwnMove(Owner(nss[n]), Owner(r.nss[n]), p.uid)
      ensures Others(r.nss[n]) == Others(nss[n])
    {
      EnforceAt(nss, key, p, order, n);
    }
  }

  lemma EnforceKeys(nss: Namespaces, key: Key, p: Policy, order: seq<string>)
    requires IterationOrder(order, Selected(p.spec))
    ensures Enforce(nss, key, p, order).nss.Keys == nss.Keys
  {
    hide Selected, Annotate, Others, Conflicts;
    ApplyOutcome(Released(nss, p), key, p, order);
  }

  // ---------------------------------------------------------------- two policies

  /** Both policies can be enforced, in either order. */
  predicate BothOrdersSucceed(nss: Namespaces, kp: Key, p: Policy, kq: Key, q: Policy) {
    && !Conflicted(nss, p) && !Conflicted(EnforcedState(nss, kp, p), q)
    && !Conflicted(nss, q) && !Conflicted(EnforcedState(nss, kq, q), p)
  }

  lemma SecondConflicts(nss: Namespaces, kp: Key, p: Policy, q: Policy)
    requires p.uid != "" && q.uid != "" && p.uid != q.uid
    ensures Conflicted(EnforcedState(nss, kp, p), q) <==>
            !(Targets(nss, p) !! Targets(nss, q)) ||
            exists n :: n in Targets(nss, q) && Conflicts(nss[n], q.uid) && Owner(nss[n]) != p.uid
  {
    hide Annotate, Others, Selected;
    forall a {:trigger Annotate(a, kp, p)} ensures Owner(Annotate(a, kp, p)) == p.uid { OneNamespace(a, kp, p); }
    forall a {:trigger Others(a)} ensures Owner(Others(a)) == "" { OthersUnowned(a); }
    var after := EnforcedState(nss, kp, p);
    if n :| n in Targets(nss, p) && n in Targets(nss, q) {
      assert n in Targets(after, q) && Conflicts(after[n], q.uid);
    }
    if n :| n in Targets(nss, q) && Conflicts(nss[n], q.uid) && Owner(nss[n]) != p.uid {
      assert n in Targets(after, q) && (n !in Targets(nss, p) ==> after[n] == nss[n]);
    }
    if n :| n in Targets(after, q) && Conflicts(after[n], q.uid) {
      assert n in Targets(nss, q) && (n !in Targets(nss, p) ==> after[n] == nss[n]);
    }
  }

  /** Two policies can be enforced in either order exactly when no existing namespace is selected by both
      and neither selects one that anybody else owns; then both orders lead to the same namespaces. */
  lemma EnforcementsCommuteIff(nss: Namespaces, kp: Key, p: Policy, kq: Key, q: Policy)
    requires p.uid != "" && q.uid != "" && p.uid != q.uid
    ensures BothOrdersSucceed(nss, kp, p, kq, q) <==>
            Targets(nss, p) !! Targets(nss, q) && !Conflicted(nss, p) && !Conflicted(nss, q)
    ensures BothOrdersSucceed(nss, kp, p, kq, q) ==>
            EnforcedState(EnforcedState(nss, kp, p), kq, q) == EnforcedState(EnforcedState(nss, kq, q), kp, p)
  {
    hide Annotate, Others, Selected, Owner, Conflicts;
    SecondConflicts(nss, kp, p, q);
    SecondConflicts(nss, kq, q, p);
    if BothOrdersSucceed(nss, kp, p, kq, q) {
      OrdersAgree(nss, kp, p, kq, q);
    }
  }

  lemma OrdersAgree(nss: Namespaces, kp: Key, p: Policy, kq: Key, q: Policy)
    requires p.uid != "" && q.uid != "" && p.uid != q.uid
    requires Targets(nss, p) !! Targets(nss, q) && !Conflicted(nss, p) && !Conflicted(nss, q)
    ensures EnforcedState(EnforcedState(nss, kp, p), kq, q) == EnforcedState(EnforcedState(nss, kq, q), kp, p)
  {
    hide Annotate, Others, Selected, Owner, Conflicts, EnforcedState;
    var pq := EnforcedState(EnforcedState(nss, kp, p), kq, q);
    var qp := EnforcedState(EnforcedState(nss, kq, q), kp, p);
    EnforcedTwice(nss, kp, p, kq, q);
    EnforcedTwice(nss, kq, q, kp, p);
    forall n | n in nss ensures pq[n] == qp[n] {
      assert n in Targets(nss, p) <==> n in Selected(p.spec);
      assert n in Targets(nss, q) <==> n in Selected(q.spec);
      OneOrder(nss[n], n in Selected(p.spec), kp, p, n in Selected(q.spec), kq, q);
    }
  }

  /** EnforcedState at one namespace. */
  function EnforcedOne(a: Annotations, selected: bool, key: Key, p: Policy): Annotations {
    if selected then Annotate(a, key, p) else if Owner(a) == p.uid then Others(a) else a
  }

  lemma EnforcedTwice(nss: Namespaces, kp: Key, p: Policy, kq: Key, q: Policy)
    ensures var pq := EnforcedState(EnforcedState(nss, kp, p), kq, q);
            && pq.Keys == nss.Keys
            && forall n :: n in nss ==>
                 pq[n] == EnforcedOne(EnforcedOne(nss[n], n in Selected(p.spec), kp, p), n in Selected(q.spec), kq, q)
  {
    hide Annotate, Others, Selected, Owner;
  }

  lemma OneOrder(a: Annotations, byP: bool, kp: Key, p: Policy, byQ: bool, kq: Key, q: Policy)
    requires p.uid != "" && q.uid != "" && p.uid != q.uid && !(byP && byQ)
    requires (byP ==> !Conflicts(a, p.uid)) && (byQ ==> !Conflicts(a, q.uid))
    ensures EnforcedOne(EnforcedOne(a, byP, kp, p), byQ, kq, q) == EnforcedOne(EnforcedOne(a, byQ, kq, q), byP, kp, p)
  {
    hide Annotate, Others, Owner;
    OneNamespace(a, kp, p);
    OneNamespace(a, kq, q);
  }
}
