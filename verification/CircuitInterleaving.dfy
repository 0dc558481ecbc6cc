/** The breaker shared by many callers: the check, the API write and the record of its outcome are
    separate steps, in any interleaving. */
module CircuitInterleaving {
  import opened CircuitBreaker

  /** `inflight`: the attempts that passed the check and have not recorded their outcome. */
  datatype State = State(breaker: Breaker, now: int, inflight: map<int, string>)

  datatype Step =
    | Tick(elapsed: nat)
    | Start(id: int, ns: string)
    | Succeed(id: int)
    | Fail(id: int, elapsed: nat)  // time may pass between the record's two clock readings

  predicate Enabled(s: State, step: Step) {
    match step
    case Tick(_) => true
    case Start(id, _) => id !in s.inflight
    case Succeed(id) => id in s.inflight
    case Fail(id, _) => id in s.inflight
  }

  function Apply(s: State, step: Step): State
    requires Enabled(s, step)
  {
    match step
    case Tick(elapsed) => s.(now := s.now + elapsed)
    case Start(id, ns) =>
      State(Check(s.breaker, ns, s.now), s.now,
            if IsOpen(s.breaker, ns, s.now) then s.inflight else s.inflight[id := ns])
    case Succeed(id) => State(Reset(s.breaker, s.inflight[id]), s.now, s.inflight - {id})
    case Fail(id, elapsed) =>
      State(RecordFailure(s.breaker, s.inflight[id], s.now, s.now + elapsed), s.now + elapsed, s.inflight - {id})
  }

  predicate EnabledRun(s: State, steps: seq<Step>)
    decreases |steps|
  {
    steps == [] || (Enabled(s, steps[0]) && EnabledRun(Apply(s, steps[0]), steps[1..]))
  }

  function Run(s: State, steps: seq<Step>): State
    requires EnabledRun(s, steps)
    decreases |steps|
  {
    if steps == [] then s else Run(Apply(s, steps[0]), steps[1..])
  }

  lemma StepKeepsInv(s: State, step: Step)
    requires Inv(s.breaker) && Enabled(s, step)
    ensures Inv(Apply(s, step).breaker)
  {
    var b, b' := s.breaker, Apply(s, step).breaker;
    forall ns ensures 0 <= Count(b', ns) < FAILURE_THRESHOLD && (ns in b'.openUntil ==> Count(b', ns) == 0) {
      assert 0 <= Count(b, ns) < FAILURE_THRESHOLD && (ns in b.openUntil ==> Count(b, ns) == 0);
    }
  }

  /** In every reachable state the counts are below the threshold and open namespaces count nothing. */
  lemma {:induction false} RunKeepsInv(s: State, steps: seq<Step>)
    requires Inv(s.breaker) && EnabledRun(s, steps)
    ensures Inv(Run(s, steps).breaker)
    decreases |steps|
  {
    if steps != [] {
      StepKeepsInv(s, steps[0]);
      RunKeepsInv(Apply(s, steps[0]), steps[1..]);
    }
  }

  /** No attempt for `ns` records a success during the run. */
  predicate NoSuccessFor(s: State, steps: seq<Step>, ns: string)
    requires EnabledRun(s, steps)
    decreases |steps|
  {
    steps == [] ||
    (!(steps[0].Succeed? && s.inflight[steps[0].id] == ns) && NoSuccessFor(Apply(s, steps[0]), steps[1..], ns))
  }

  lemma {:induction false} ClockAdvances(s: State, steps: seq<Step>)
    requires EnabledRun(s, steps)
    ensures s.now <= Run(s, steps).now
    decreases |steps|
  {
    if steps != [] {
      ClockAdvances(Apply(s, steps[0]), steps[1..]);
    }
  }

  /** Until an open entry's time has come, and unless an attempt admitted earlier succeeds, no step
      changes the entry or the count, and no further attempt for the namespace starts. */
  lemma {:induction false} WindowHolds(s: State, steps: seq<Step>, ns: string)
    requires Inv(s.breaker) && EnabledRun(s, steps) && ns in s.breaker.openUntil
    requires NoSuccessFor(s, steps, ns) && Run(s, steps).now < s.breaker.openUntil[ns]
    ensures var s' := Run(s, steps);
            && ns in s'.breaker.openUntil && s'.breaker.openUntil[ns] == s.breaker.openUntil[ns]
            && Count(s'.breaker, ns) == Count(s.breaker, ns) == 0
            && forall id :: id in s'.inflight && s'.inflight[id] == ns ==> id in s.inflight && s.inflight[id] == ns
    decreases |steps|
  {
    assert Count(s.breaker, ns) == 0;
    if steps != [] {
      ClockAdvances(Apply(s, steps[0]), steps[1..]);
      StepKeepsInv(s, steps[0]);
      WindowHolds(Apply(s, steps[0]), steps[1..], ns);
    }
  }

  /** The failure that opens the breaker keeps new attempts out for 30 seconds. */
  lemma OpeningKeepsOut(s: State, id: int, elapsed: nat, steps: seq<Step>)
    requires Inv(s.breaker) && Enabled(s, Fail(id, elapsed))
    requires Count(s.breaker, s.inflight[id]) == 2
    requires var s1 := Apply(s, Fail(id, elapsed));
             EnabledRun(s1, steps) && NoSuccessFor(s1, steps, s.inflight[id])
             && Run(s1, steps).now < s1.now + 30_000_000_000
    ensures var s1 := Apply(s, Fail(id, elapsed));
            var s2 := Run(s1, steps);
            var ns := s.inflight[id];
            && IsOpen(s2.breaker, ns, s2.now) && Count(s2.breaker, ns) == 0
            && s2.breaker.openUntil[ns] == s1.now + 30_000_000_000
            && forall i :: i in s2.inflight && s2.inflight[i] == ns ==> i in s1.inflight && s1.inflight[i] == ns
  {
    StepKeepsInv(s, Fail(id, elapsed));
    WindowHolds(Apply(s, Fail(id, elapsed)), steps, s.inflight[id]);
  }
}
