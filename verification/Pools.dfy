/** DNSUpstreamPool objects as the API server stores them. */
module Pools {
  import opened Text
  import opened Engine

  const INITIAL_RV_ANNOTATION := "dns.astradns.com/initial-resource-version"

  datatype Reason =
    | Ready
    | InvalidSpec
    | Superseded
    | ProfileLookupFailed
    | ConfigGenerationFailed
    | ValidationFailed
    | MarshalFailed
    | ConfigTooLarge
    | ConfigMapUpdateFailed
    | ConfigMapCircuitOpen

  /** The Ready condition, without its message and its times. */
  datatype Condition = Condition(ready: bool, reason: Reason)

  datatype Pool = Pool(
    name: string,
    creation: int,  // creationTimestamp in seconds; 0 is Go's zero time
    resourceVersion: string,
    annotations: map<string, string>,
    spec: PoolSpec,
    condition: Option<Condition>)

  /** initialRV: the stamped initial resource version, or 0 if absent or unparseable. */
  function InitialRV(pool: Pool): int {
    if INITIAL_RV_ANNOTATION !in pool.annotations then 0
    else match ParseInt64(pool.annotations[INITIAL_RV_ANNOTATION])
      case None => 0
      case Some(v) => v
  }

  predicate HasStamp(pool: Pool) { INITIAL_RV_ANNOTATION in pool.annotations }

  /** ensureInitialRVAnnotation's effect on the object it patches. */
  function Stamp(pool: Pool): Pool {
    if HasStamp(pool) then pool
    else pool.(annotations := pool.annotations[INITIAL_RV_ANNOTATION := pool.resourceVersion])
  }
}
