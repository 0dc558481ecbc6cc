/** The gauge that names each namespace's active pool, and the shadow map that keeps it clean. */
module ActivePoolMetric {
  import opened Text

  const SINGLE_POOL := "single_pool"
  const OLDEST_POOL := "oldest_pool"

  datatype Selection = Selection(pool: string, reason: string)

  datatype Labels = Labels(ns: string, selection: Selection)

  /** `shadow` is activePoolMetricState; `gauge` holds the series of activePoolSelectionGauge. */
  datatype Metrics = Metrics(shadow: map<string, Selection>, gauge: map<Labels, int>)

  function SelectionReason(poolCount: nat): string { if poolCount > 1 then OLDEST_POOL else SINGLE_POOL }

  /** recordActivePoolSelectionMetric */
  function Record(m: Metrics, ns: string, pool: string, reason: string): Metrics {
    if ns == "" || pool == "" then m
    else
      var selection := Selection(pool, if TrimSpace(reason) == "" then SINGLE_POOL else reason);
      if ns in m.shadow && m.shadow[ns] == selection then m.(gauge := m.gauge[Labels(ns, selection) := 1])
      else
        var kept := if ns in m.shadow then m.gauge - {Labels(ns, m.shadow[ns])} else m.gauge;
        Metrics(m.shadow[ns := selection], kept[Labels(ns, selection) := 1])
  }

  /** clearActivePoolSelectionMetric */
  function Clear(m: Metrics, ns: string): Metrics {
    if ns == "" || ns !in m.shadow then m
    else Metrics(m.shadow - {ns}, m.gauge - {Labels(ns, m.shadow[ns])})
  }

  datatype Call = RecordCall(ns: string, pool: string, reason: string) | ClearCall(ns: string)

  function AfterCall(m: Metrics, c: Call): Metrics {
    match c
    case RecordCall(ns, pool, reason) => Record(m, ns, pool, reason)
    case ClearCall(ns) => Clear(m, ns)
  }

  function After(calls: seq<Call>): Metrics {
    if calls == [] then Metrics(map[], map[])
    else AfterCall(After(calls[..|calls| - 1]), calls[|calls| - 1])
  }

  /** The gauge is exactly the shadow: one series of value 1 per namespace, and no other. */
  ghost predicate Agrees(m: Metrics) {
    && (forall ns :: ns in m.shadow ==> Labels(ns, m.shadow[ns]) in m.gauge)
    && (forall l :: l in m.gauge ==> m.gauge[l] == 1 && l.ns in m.shadow && m.shadow[l.ns] == l.selection)
  }

  lemma CallKeepsAgreement(m: Metrics, c: Call)
    requires Agrees(m)
    ensures Agrees(AfterCall(m, c))
  {
  }

  /** The last record or clear of a namespace, if any, with the blank reason read as single_pool. */
  function LastSelection(calls: seq<Call>, ns: string): Option<Selection> {
    if calls == [] then None
    else match calls[|calls| - 1]
      case RecordCall(n, pool, reason) =>
        if n == ns && ns != "" && pool != ""
        then Some(Selection(pool, if TrimSpace(reason) == "" then SINGLE_POOL else reason))
        else LastSelection(calls[..|calls| - 1], ns)
      case ClearCall(n) => if n == ns then None else LastSelection(calls[..|calls| - 1], ns)
  }

  /** After any calls, gauge and shadow agree, and both show the last selection of every namespace. */
  lemma {:induction false} GaugeShowsLastSelection(calls: seq<Call>)
    ensures var m := After(calls);
            && Agrees(m)
            && forall ns :: ns != "" ==>
                 (if ns in m.shadow then LastSelection(calls, ns) == Some(m.shadow[ns])
                  else LastSelection(calls, ns) == None)
  {
    if calls != [] {
      GaugeShowsLastSelection(calls[..|calls| - 1]);
      CallKeepsAgreement(After(calls[..|calls| - 1]), calls[|calls| - 1]);
      hide TrimSpace;
    }
  }
}
