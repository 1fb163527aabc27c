/**
 The NATS consumer as an interleaved state machine. All handler runs of one consumer share one
 task and yield only at awaits, so no other handler acts between the clock reading of an admission
 and its claim, nor during the bookkeeping after the last signing attempt. The sweep is another
 task on another thread: by the time of the claim the clock, and a sweep, may be ahead of the
 reading. A run of the system is any sequence of actions; an action that is not enabled leaves the
 state alone.
 */
module Consumer {
  import opened Common
  import opened EnvelopeAuthentication
  import opened Deployment
  import opened Dedup

  const STALE_AFTER_MS := 55_000
  const CACHE_TTL_MS := 60_000
  const MAX_RETRIES := 3

  datatype Rejection = AuthFailed | RoleDenied | Stale | Malformed | PolicyDenied | KeyDenied

  datatype Verdict = Duplicate | Rejected(stage: Rejection) | Proceed

  /** `Working(n)`: past the claim, `n` failed signing attempts behind it. */
  datatype Phase =
    | Working(failures: nat)
    | Succeeded(signature: Signature, slot: nat, endedMs: nat)
    | GaveUp(endedMs: nat)

  /** `admittedMs` is the clock reading the admission works with, `claimedMs` the clock at the claim. */
  datatype Run = Run(envelope: Envelope, key: Option<string>, admittedMs: nat, claimedMs: nat, phase: Phase)

  datatype Reply = Reply(envelope: Envelope, result: TxResult)

  /**
   One consumer lifetime: the clock, the handlers' latest reading of it, the two maps, and the
   history of runs, replies and cancels.
   */
  datatype State = State(
    clockMs: nat,
    readMs: nat,
    dedup: Store,
    cache: map<string, nat>,
    runs: seq<Run>,
    replies: seq<Reply>,
    cancelled: set<string>)

  datatype Action =
    | Tick(elapsedMs: nat)
    | Deliver(envelope: Envelope, nowMs: nat)
    | Cancel(request: CancelEnvelope)
    | AttemptDone(run: nat, result: Result<(Signature, nat), string>)
    | Sweep(asOfMs: nat, visited: set<string>)
    | Reconnect

  function Fresh(clockMs: nat): State {
    State(clockMs, clockMs, map[], map[], [], [], {})
  }

  function CancelMark(correlationId: string): string {
    "cancel:" + correlationId
  }

  /** Keys are namespaced by effect, and an empty idempotency key is unprotected. */
  function DedupKey(e: Envelope): Option<string> {
    if e.idempotencyKey == "" then None
    else if e.body.SubmitTx? then Some("submit:" + e.idempotencyKey)
    else Some("mint:" + e.idempotencyKey)
  }

  function AuthOf(dep: Deployment, e: Envelope, nowMs: nat): AuthCheck {
    CheckEnvelopeAuth(dep.crypto, dep.authPolicy.caDer, e.auth, e.serviceIdentity, dep.canonicalBytes(e), nowMs / 1000)
  }

  predicate IsStale(createdAtMs: nat, nowMs: nat) {
    SaturatingSub(nowMs, createdAtMs) > STALE_AFTER_MS
  }

  /** The admission gates in order; `seen` says whether the correlation id is in the cache. */
  function Gates(dep: Deployment, seen: bool, e: Envelope, nowMs: nat): Verdict {
    match e.body
    case SubmitTx(bytes, keyId) =>
      if !AuthAccepts(AuthOf(dep, e, nowMs), dep.authPolicy.requireSigned) then Rejected(AuthFailed)
      else if dep.roleOf(e.serviceIdentity) == Unknown then Rejected(RoleDenied)
      else if seen then Duplicate
      else if IsStale(e.createdAtMs, nowMs) then Rejected(Stale)
      else if dep.decode(bytes).None? then Rejected(Malformed)
      else if dep.policyObjection(e.serviceIdentity, dep.decode(bytes).value).Some? then Rejected(PolicyDenied)
      else if keyId != PLATFORM_ADMIN && keyId != "" then Rejected(KeyDenied)
      else Proceed
    case MintEnergy(_, _, _) =>
      if !AuthAccepts(AuthOf(dep, e, nowMs), true) then Rejected(AuthFailed)
      else if !dep.requireAny(dep.roleOf(e.serviceIdentity), [AggregatorBridge, MeterService]) then Rejected(RoleDenied)
      else if seen then Duplicate
      else if IsStale(e.createdAtMs, nowMs) then Rejected(Stale)
      else Proceed
  }

  function CancelGates(dep: Deployment, seen: bool, c: CancelEnvelope, nowMs: nat): Verdict {
    var check := CheckEnvelopeAuth(dep.crypto, dep.authPolicy.caDer, c.auth, c.serviceIdentity,
                                   dep.canonicalCancelBytes(c), nowMs / 1000);
    if !AuthAccepts(check, dep.authPolicy.requireSigned) then Rejected(AuthFailed)
    else if dep.roleOf(c.serviceIdentity) == Unknown then Rejected(RoleDenied)
    else if seen then Duplicate
    else if IsStale(c.createdAtMs, nowMs) then Rejected(Stale)
    else Proceed
  }

  /** The leading words of each rejection's error text. */
  function RejectionText(stage: Rejection): string {
    match stage
    case AuthFailed => "envelope authentication failed"
    case RoleDenied => "Unauthorised service identity"
    case Stale => "Stale"
    case Malformed => "Invalid transaction format"
    case PolicyDenied => "Policy Engine rejection"
    case KeyDenied => "Key ID not authorized"
  }

  function Refusal(correlationId: string, stage: Rejection): TxResult {
    TxResult(correlationId, false, None, 0, false, Some(RejectionText(stage)))
  }

  function Success(correlationId: string, signature: Signature, slot: nat): TxResult {
    TxResult(correlationId, true, Some(signature), slot, false, None)
  }

  function Failure(correlationId: string, error: string): TxResult {
    TxResult(correlationId, false, None, 0, false, Some(error))
  }

  /** A finished run records its effect as done, or gives its claim back. */
  function FinishStore(store: Store, key: Option<string>, admittedMs: nat,
                       result: Result<(Signature, nat), string>): Store
  {
    if key.None? then store
    else if result.Ok? then store[key.value := DoneRecord(admittedMs, result.value.0, result.value.1)]
    else store - {key.value}
  }

  function DoneRecord(admittedMs: nat, signature: Signature, slot: nat): DedupRecord {
    DedupRecord(admittedMs + DEDUP_TTL_MS, Done(Some(signature), slot))
  }

  /** The handler read `nowMs` and has reached its decision; readings never go backwards. */
  function DeliverStep(dep: Deployment, s: State, e: Envelope, nowMs: nat): State {
    if s.readMs <= nowMs <= s.clockMs then Admit(dep, s.(readMs := nowMs), e) else s
  }

  /** Gates and claim at the reading `s.readMs`. */
  function Admit(dep: Deployment, s: State, e: Envelope): State {
    match Gates(dep, e.correlationId in s.cache, e, s.readMs)
    case Duplicate => s
    case Rejected(stage) => s.(replies := s.replies + [Reply(e, Refusal(e.correlationId, stage))])
    case Proceed =>
      var key := DedupKey(e);
      match ClaimAnswer(s.dedup, key, e.correlationId, s.readMs)
      case Some(prior) => s.(replies := s.replies + [Reply(e, prior)])
      case None =>
        s.(dedup := ClaimStore(s.dedup, key, s.readMs),
           runs := s.runs + [Run(e, key, s.readMs, s.clockMs, Working(0))])
  }

  function CancelStep(dep: Deployment, s: State, c: CancelEnvelope): State {
    if CancelGates(dep, CancelMark(c.correlationId) in s.cache, c, s.clockMs) != Proceed then s
    else
      s.(cache := s.cache[CancelMark(c.correlationId) := s.clockMs + CACHE_TTL_MS]
                         [c.correlationId := s.clockMs + CACHE_TTL_MS],
         cancelled := s.cancelled + {c.correlationId})
  }

  /** A submit is retried after a failure, a mint is not. */
  predicate WillRetry(run: Run) {
    run.phase.Working? && run.envelope.body.SubmitTx? && run.phase.failures < MAX_RETRIES
  }

  function AttemptStep(s: State, i: nat, result: Result<(Signature, nat), string>): State {
    if i >= |s.runs| || !s.runs[i].phase.Working? then s
    else
      var run := s.runs[i];
      var id := run.envelope.correlationId;
      if result.Err? && WillRetry(run) then
        s.(runs := s.runs[i := run.(phase := Working(run.phase.failures + 1))])
      else if result.Err? then
        s.(dedup := FinishStore(s.dedup, run.key, run.admittedMs, result),
           runs := s.runs[i := run.(phase := GaveUp(s.clockMs))],
           replies := s.replies + [Reply(run.envelope, Failure(id, result.error))])
      else
        s.(dedup := FinishStore(s.dedup, run.key, run.admittedMs, result),
           cache := s.cache[id := run.admittedMs + CACHE_TTL_MS],
           runs := s.runs[i := run.(phase := Succeeded(result.value.0, result.value.1, s.clockMs))],
           replies := s.replies + [Reply(run.envelope, Success(id, result.value.0, result.value.1))])
  }

  function Step(dep: Deployment, s: State, a: Action): State {
    match a
    case Tick(elapsed) => s.(clockMs := s.clockMs + elapsed)
    case Deliver(e, nowMs) => DeliverStep(dep, s, e, nowMs)
    case Cancel(c) => CancelStep(dep, s, c)
    case AttemptDone(i, result) => AttemptStep(s, i, result)
    case Sweep(asOf, visited) => if asOf <= s.clockMs then s.(dedup := Swept(s.dedup, asOf, visited)) else s
    case Reconnect => Fresh(s.clockMs)
  }

  /** The state after a whole sequence of actions. */
  function Exec(dep: Deployment, s: State, actions: seq<Action>): State {
    if actions == [] then s
    else Step(dep, Exec(dep, s, actions[..|actions| - 1]), actions[|actions| - 1])
  }

  lemma ExecAppend(dep: Deployment, s: State, actions: seq<Action>, a: Action)
    ensures Exec(dep, s, actions + [a]) == Step(dep, Exec(dep, s, actions), a)
  {
    assert (actions + [a])[..|actions|] == actions;
  }
}
