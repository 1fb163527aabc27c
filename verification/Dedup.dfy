/** Effect-level deduplication records and the claim-or-replay decision on them. */
module Dedup {
  import opened Common

  const DEDUP_TTL_MS := 120_000

  datatype DedupState = InFlight | Done(signature: Option<Signature>, slot: nat)

  datatype DedupRecord = DedupRecord(expiryMs: nat, state: DedupState)

  type Store = map<string, DedupRecord>

  /** Reply to a submit or mint attempt. */
  datatype TxResult = TxResult(
    correlationId: string, success: bool, signature: Option<Signature>, slot: nat,
    deduplicated: bool, error: Option<string>)

  predicate Live(store: Store, key: string, nowMs: nat) {
    key in store && store[key].expiryMs > nowMs
  }

  function Replay(state: DedupState, correlationId: string): TxResult {
    match state
    case Done(signature, slot) => TxResult(correlationId, true, signature, slot, true, None)
    case InFlight => TxResult(correlationId, false, None, 0, true, Some("Submit already in flight for this idempotency_key"))
  }

  /** What the attempt is told, if it must stop: a live record's replay. */
  function ClaimAnswer(store: Store, dedupKey: Option<string>, correlationId: string, nowMs: nat): Option<TxResult> {
    if dedupKey.Some? && Live(store, dedupKey.value, nowMs)
    then Some(Replay(store[dedupKey.value].state, correlationId))
    else None
  }

  /** The store afterwards: an absent or expired key is claimed in flight. */
  function ClaimStore(store: Store, dedupKey: Option<string>, nowMs: nat): Store {
    if dedupKey.None? || Live(store, dedupKey.value, nowMs) then store
    else store[dedupKey.value := DedupRecord(nowMs + DEDUP_TTL_MS, InFlight)]
  }

  /** One sweep pass with clock reading `asOfMs` that has reached the keys `visited` so far. */
  function Swept(store: Store, asOfMs: nat, visited: set<string>): Store {
    map k | k in store && !(k in visited && store[k].expiryMs <= asOfMs) :: store[k]
  }

  /** `swept` is `full` with some records that are already expired at `nowMs` missing. */
  ghost predicate SameUpToExpired(swept: Store, full: Store, nowMs: nat) {
    && (forall k :: k in swept ==> k in full && full[k] == swept[k])
    && (forall k :: k in full && k !in swept ==> full[k].expiryMs <= nowMs)
  }

  /**
   A sweep with clock `asOfMs` changes the answer of a later claim at `nowMs` exactly when the
   claim's clock lags behind the sweep's and the swept record was still live at the claim's.
   */
  lemma SweepChangesAnswerIff(store: Store, key: string, correlationId: string, asOfMs: nat, nowMs: nat)
    ensures ClaimAnswer(Swept(store, asOfMs, {key}), Some(key), correlationId, nowMs)
         != ClaimAnswer(store, Some(key), correlationId, nowMs)
       <==> key in store && nowMs < store[key].expiryMs <= asOfMs
  {
    var swept := Swept(store, asOfMs, {key});
    assert key in swept <==> key in store && !(store[key].expiryMs <= asOfMs);
  }
}
