/** The per-namespace circuit breaker in front of ConfigMap writes. Times are nanoseconds. */
module CircuitBreaker {

  const FAILURE_THRESHOLD := 3
  const OPEN_INTERVAL := 30_000_000_000

  /** configMapFailureCounts and configMapCircuitOpenUntil. */
  datatype Breaker = Breaker(counts: map<string, int>, openUntil: map<string, int>)

  function Count(b: Breaker, ns: string): int { if ns in b.counts then b.counts[ns] else 0 }

  predicate IsOpen(b: Breaker, ns: string, now: int) { ns in b.openUntil && now <= b.openUntil[ns] }

  /** isConfigMapCircuitOpen: an entry whose time has passed is dropped. */
  function Check(b: Breaker, ns: string, now: int): Breaker {
    if ns in b.openUntil && now > b.openUntil[ns] then b.(openUntil := b.openUntil - {ns}) else b
  }

  /** recordConfigMapUpdateFailure, with its two readings of the clock. */
  function RecordFailure(b: Breaker, ns: string, t1: int, t2: int): Breaker {
    if ns in b.openUntil && t1 < b.openUntil[ns] then b
    else
      var open := b.openUntil - {ns};
      var next := Count(b, ns) + 1;
      if next >= FAILURE_THRESHOLD then Breaker(b.counts[ns := 0], open[ns := t2 + OPEN_INTERVAL])
      else Breaker(b.counts[ns := next], open)
  }

  /** resetConfigMapUpdateFailures */
  function Reset(b: Breaker, ns: string): Breaker {
    Breaker(b.counts - {ns}, b.openUntil - {ns})
  }

  /** Counts stay below the threshold, and an open namespace counts nothing. */
  ghost predicate Inv(b: Breaker) {
    forall ns :: 0 <= Count(b, ns) < FAILURE_THRESHOLD && (ns in b.openUntil ==> Count(b, ns) == 0)
  }

  // ---------------------------------------------------------------- sequential calls

  /** One call of upsertConfigMapWithCircuitBreaker: the clock at its check, the API's verdict, and the
      clock readings of the record that follows. */
  datatype Call = Call(ns: string, checked: int, ok: bool, t1: int, t2: int)

  predicate Admitted(b: Breaker, c: Call) { !IsOpen(b, c.ns, c.checked) }

  function AfterCall(b: Breaker, c: Call): Breaker {
    if !Admitted(b, c) then Check(b, c.ns, c.checked)
    else if c.ok then Reset(Check(b, c.ns, c.checked), c.ns)
    else RecordFailure(Check(b, c.ns, c.checked), c.ns, c.t1, c.t2)
  }

  function After(b: Breaker, calls: seq<Call>): Breaker {
    if calls == [] then b else AfterCall(After(b, calls[..|calls| - 1]), calls[|calls| - 1])
  }

  /** The clock never runs backwards, within a call or from one call to the next. */
  ghost predicate Sequential(calls: seq<Call>) {
    && (forall i :: 0 <= i < |calls| ==> calls[i].checked <= calls[i].t1 <= calls[i].t2)
    && (forall i, j :: 0 <= i < j < |calls| ==> calls[i].t2 <= calls[j].checked)
  }

  /** Call `i` was let through to the API. */
  predicate Attempt(b: Breaker, calls: seq<Call>, i: int, ns: string)
    requires 0 <= i < |calls|
  {
    calls[i].ns == ns && Admitted(After(b, calls[..i]), calls[i])
  }

  predicate Failure(b: Breaker, calls: seq<Call>, i: int, ns: string)
    requires 0 <= i < |calls|
  {
    Attempt(b, calls, i, ns) && !calls[i].ok
  }

  ghost predicate NoSuccess(b: Breaker, calls: seq<Call>, ns: string) {
    forall i {:trigger Attempt(b, calls, i, ns)} :: 0 <= i < |calls| && Attempt(b, calls, i, ns) ==> !calls[i].ok
  }

  /** The number of failed API writes for `ns` among the calls. */
  function Failures(b: Breaker, calls: seq<Call>, ns: string): nat {
    if calls == [] then 0
    else Failures(b, calls[..|calls| - 1], ns) + if Failure(b, calls, |calls| - 1, ns) then 1 else 0
  }

  lemma AfterCallKeepsInv(b: Breaker, c: Call)
    requires Inv(b)
    ensures Inv(AfterCall(b, c))
  {
    var b' := AfterCall(b, c);
    forall ns ensures 0 <= Count(b', ns) < FAILURE_THRESHOLD && (ns in b'.openUntil ==> Count(b', ns) == 0) {
      assert 0 <= Count(b, ns) < FAILURE_THRESHOLD && (ns in b.openUntil ==> Count(b, ns) == 0);
    }
  }

  lemma {:induction false} AfterKeepsInv(b: Breaker, calls: seq<Call>)
    requires Inv(b)
    ensures Inv(After(b, calls))
  {
    if calls != [] {
      AfterKeepsInv(b, calls[..|calls| - 1]);
      AfterCallKeepsInv(After(b, calls[..|calls| - 1]), calls[|calls| - 1]);
    }
  }

  lemma PrefixFacts(b: Breaker, calls: seq<Call>, ns: string)
    requires calls != []
    ensures var init := calls[..|calls| - 1];
            && (forall i :: 0 <= i < |init| ==> init[i] == calls[i])
            && (forall i {:trigger Attempt(b, init, i, ns)} :: 0 <= i < |init| ==>
               (Attempt(b, init, i, ns) <==> Attempt(b, calls, i, ns)))
            && (Sequential(calls) ==> Sequential(init))
            && (NoSuccess(b, calls, ns) ==> NoSuccess(b, init, ns))
  {
    var init := calls[..|calls| - 1];
    assert forall i :: 0 <= i < |init| ==> init[..i] == calls[..i];
  }

  lemma CountInRange(b: Breaker, ns: string)
    requires Inv(b)
    ensures 0 <= Count(b, ns) < FAILURE_THRESHOLD
  {
  }

  lemma LastCall(b: Breaker, calls: seq<Call>, ns: string)
    requires calls != [] && NoSuccess(b, calls, ns)
    ensures var init, last := calls[..|calls| - 1], calls[|calls| - 1];
            var attempt := last.ns == ns && Admitted(After(b, init), last);
            && (Failure(b, calls, |calls| - 1, ns) <==> attempt) && (attempt ==> !last.ok)
            && Failures(b, calls, ns) == Failures(b, init, ns) + (if attempt then 1 else 0)
            && After(b, calls) == AfterCall(After(b, init), last)
  {
    assert Attempt(b, calls, |calls| - 1, ns) ==> !calls[|calls| - 1].ok;
  }

  lemma CountStep(b: Breaker, c: Call, ns: string, total: int)
    requires Inv(b) && 0 <= total && Count(b, ns) == total % FAILURE_THRESHOLD
    requires c.ns == ns && Admitted(b, c) ==> !c.ok
    ensures Count(AfterCall(b, c), ns) ==
            (total + if c.ns == ns && Admitted(b, c) then 1 else 0) % FAILURE_THRESHOLD
  {
    assert ns in b.openUntil ==> Count(b, ns) == 0;
  }

  /** Without a success for `ns`, the stored count is the number of failures modulo the threshold. */
  lemma {:induction false} CountIsFailuresModulo(b: Breaker, calls: seq<Call>, ns: string)
    requires Inv(b) && NoSuccess(b, calls, ns)
    ensures Count(After(b, calls), ns) == (Count(b, ns) + Failures(b, calls, ns)) % 3
  {
    hide Count, AfterCall, Admitted, Inv;
    CountInRange(b, ns);
    if calls != [] {
      var init := calls[..|calls| - 1];
      PrefixFacts(b, calls, ns);
      LastCall(b, calls, ns);
      CountIsFailuresModulo(b, init, ns);
      AfterKeepsInv(b, init);
      CountStep(After(b, init), calls[|calls| - 1], ns, Count(b, ns) + Failures(b, init, ns));
    }
  }

  /** After a success it is the number of failures since, modulo the threshold. */
  lemma CountSinceSuccess(b: Breaker, c: Call, calls: seq<Call>)
    requires Inv(b) && Admitted(b, c) && c.ok && NoSuccess(AfterCall(b, c), calls, c.ns)
    ensures Count(After(AfterCall(b, c), calls), c.ns) == Failures(AfterCall(b, c), calls, c.ns) % 3
  {
    AfterCallKeepsInv(b, c);
    CountIsFailuresModulo(AfterCall(b, c), calls, c.ns);
  }

  /** How often that many failures open the breaker. */
  function Windows(failures: int): int { failures / FAILURE_THRESHOLD }

  /** No earlier than `t` seen from the clock `now`; strictly later once a window has been waited out. */
  predicate Waited(first: int, windows: int, now: int) {
    now >= first + OPEN_INTERVAL * windows && (windows >= 1 ==> now > first + OPEN_INTERVAL * windows)
  }

  /** `windows` openings since the instant `first`: an open entry ends late enough, and a closed
      breaker means that all the windows have passed. */
  predicate Spread(b: Breaker, ns: string, windows: int, first: int, now: int) {
    if ns in b.openUntil then windows >= 1 && b.openUntil[ns] >= first + OPEN_INTERVAL * windows
    else Waited(first, windows, now)
  }

  /** The breaker after `total` failures, the initial count included, all of them since `first`. */
  ghost predicate Track(b: Breaker, ns: string, total: int, first: int, now: int) {
    Inv(b) && 0 <= total && Count(b, ns) == total % FAILURE_THRESHOLD && Spread(b, ns, Windows(total), first, now)
  }

  lemma TrackStep(b: Breaker, c: Call, ns: string, total: int, first: int, now: int)
    requires Track(b, ns, total, first, now) && now <= c.checked <= c.t1 <= c.t2
    requires c.ns == ns && Admitted(b, c) ==> !c.ok
    ensures Track(AfterCall(b, c), ns, total + if c.ns == ns && Admitted(b, c) then 1 else 0, first, c.t2)
    ensures c.ns == ns && Admitted(b, c) ==> Waited(first, Windows(total), c.checked)
  {
    AfterCallKeepsInv(b, c);
    CountStep(b, c, ns, total);
  }

  lemma TrackStart(b: Breaker, c: Call, ns: string)
    requires Inv(b) && c.ns == ns && Admitted(b, c) && !c.ok && c.checked <= c.t1 <= c.t2
    ensures Track(AfterCall(b, c), ns, Count(b, ns) + 1, c.t2, c.t2)
  {
    assert 0 <= Count(b, ns) < FAILURE_THRESHOLD && (ns in b.openUntil ==> Count(b, ns) == 0);
    AfterCallKeepsInv(b, c);
    CountStep(b, c, ns, Count(b, ns));
  }

  lemma {:induction false} TrackRun(b: Breaker, calls: seq<Call>, ns: string)
    requires Inv(b) && Sequential(calls) && NoSuccess(b, calls, ns)
    requires calls != [] && Failure(b, calls, 0, ns)
    ensures Track(After(b, calls), ns, Count(b, ns) + Failures(b, calls, ns), calls[0].t2, calls[|calls| - 1].t2)
  {
    hide Count, AfterCall, Admitted, Track, Inv;
    var init, last := calls[..|calls| - 1], calls[|calls| - 1];
    PrefixFacts(b, calls, ns);
    LastCall(b, calls, ns);
    if init == [] {
      assert calls[..0] == [];
      TrackStart(b, last, ns);
    } else {
      assert init[..0] == calls[..0];
      TrackRun(b, init, ns);
      TrackStep(After(b, init), last, ns, Count(b, ns) + Failures(b, init, ns), calls[0].t2, init[|init| - 1].t2);
    }
  }

  lemma WaitedAtLeast(first: int, k: nat, m: nat, now: int)
    requires Waited(first, Windows(k + m), now)
    ensures now - first >= OPEN_INTERVAL * Windows(m)
    ensures m >= 3 ==> now - first > OPEN_INTERVAL * Windows(m)
  {
    assert Windows(k + m) >= Windows(m);
  }

  /** N failed API writes for one namespace, with no success between them and other calls anywhere in
      between, take at least 30 seconds for every three of them but the last, counted from the end of
      the first to the start of the last; strictly more once N is 4. */
  lemma FailuresTakeTime(b: Breaker, calls: seq<Call>, ns: string)
    requires Inv(b) && Sequential(calls) && NoSuccess(b, calls, ns)
    requires |calls| >= 2 && Failure(b, calls, 0, ns) && Failure(b, calls, |calls| - 1, ns)
    ensures var n := Failures(b, calls, ns);
            var span := calls[|calls| - 1].checked - calls[0].t2;
            && span >= 30_000_000_000 * ((n - 1) / 3)
            && (n >= 4 ==> span > 30_000_000_000 * ((n - 1) / 3))
  {
    hide Count, AfterCall, Admitted, Track, Inv, Waited;
    CountInRange(b, ns);
    var init, last := calls[..|calls| - 1], calls[|calls| - 1];
    PrefixFacts(b, calls, ns);
    LastCall(b, calls, ns);
    assert init[..0] == calls[..0];
    TrackRun(b, init, ns);
    TrackStep(After(b, init), last, ns, Count(b, ns) + Failures(b, init, ns), calls[0].t2, init[|init| - 1].t2);
    WaitedAtLeast(calls[0].t2, Count(b, ns), Failures(b, init, ns), last.checked);
  }

  /** Every third failed API write of a namespace, with no success in between, opens its circuit: from the end of
      that call, at t2, calls are refused exactly up to 30 seconds later. */
  lemma ThirdFailureOpens(b: Breaker, calls: seq<Call>, ns: string, now: int)
    requires Inv(b) && Sequential(calls) && NoSuccess(b, calls, ns)
    requires calls != [] && Failure(b, calls, |calls| - 1, ns) && (Count(b, ns) + Failures(b, calls, ns)) % 3 == 0
    ensures IsOpen(After(b, calls), ns, now) <==> now <= calls[|calls| - 1].t2 + 30_000_000_000
    ensures ns in After(b, calls).openUntil && Count(After(b, calls), ns) == 0
  {
    hide Inv;
    var init := calls[..|calls| - 1];
    PrefixFacts(b, calls, ns);
    CountIsFailuresModulo(b, init, ns);
    CountIsFailuresModulo(b, calls, ns);
    CountInRange(After(b, init), ns) by { AfterKeepsInv(b, init); }
  }

  /** The other failures leave it closed. */
  lemma OtherFailuresDoNot(b: Breaker, calls: seq<Call>, ns: string, now: int)
    requires Inv(b) && Sequential(calls) && NoSuccess(b, calls, ns)
    requires calls != [] && Failure(b, calls, |calls| - 1, ns) && (Count(b, ns) + Failures(b, calls, ns)) % 3 != 0
    ensures !IsOpen(After(b, calls), ns, now) && Count(After(b, calls), ns) > 0
  {
    hide Inv;
    PrefixFacts(b, calls, ns);
    CountIsFailuresModulo(b, calls, ns);
    AfterKeepsInv(b, calls);
    OpenCountsNothing(After(b, calls), ns);
  }

  lemma OpenCountsNothing(b: Breaker, ns: string)
    requires Inv(b)
    ensures ns in b.openUntil ==> Count(b, ns) == 0
  {
    assert 0 <= Count(b, ns) < FAILURE_THRESHOLD && (ns in b.openUntil ==> Count(b, ns) == 0);
  }

  /** And so does a success, which forgets all failures. */
  lemma SuccessCloses(b: Breaker, c: Call, now: int)
    requires Admitted(b, c) && c.ok
    ensures !IsOpen(AfterCall(b, c), c.ns, now) && Count(AfterCall(b, c), c.ns) == 0
  {
  }

  /** A call is refused exactly while an entry's time has not passed. */
  lemma RefusedIff(b: Breaker, c: Call)
    ensures Admitted(b, c) <==> c.ns !in b.openUntil || b.openUntil[c.ns] < c.checked
  {
  }
}
