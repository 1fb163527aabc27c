/**
 `sign_and_submit` as a state machine. A call advances from one await to the next; the answers of
 the blockhash cache, provider, Vault and audit store are arbitrary. Any number of calls interleave
 over one audit log.
 */
module Pipeline {
  import opened Common
  import opened Deployment
  import opened AuditChain

  datatype Request = Request(serialized: Bytes, keyId: string, identity: string, correlationId: string)

  /** Which stage failed, as callers classify it. */
  datatype Stage =
    | InvalidFormat
    | PolicyRejected(reason: string)
    | BlockhashRefreshFailed(error: string)
    | SimulationRejected(reason: string)
    | VaultSigningFailed(error: string)
    | KeyNotAuthorized(keyId: string)
    | SubmissionFailed(error: string)

  type Outcome = Result<Signature, Stage>

  datatype Phase =
    | Ready
    | Filling(tx: Transaction)
    | Simulating(tx: Transaction)
    | Signing(tx: Transaction)
    | Sending(tx: Transaction)
    | Auditing(entry: AuditOutcome, outcome: Outcome)
    | Returned(outcome: Outcome)
    | Panicked

  /** What a pending external call may answer. */
  datatype Answer =
    | Begin
    | Blockhash(hash: Result<Bytes, string>)
    | Simulation(verdict: Result<Option<string>, string>)
    | VaultSignature(signature: Result<Signature, string>)
    | Sent(signature: Result<Signature, string>)
    | Appended(ok: bool)

  /** The calls the pipeline makes on the outside world, in order. */
  datatype Event =
    | PolicyPassed(identity: string, tx: Transaction)
    | Simulated(tx: Transaction, verdict: Result<Option<string>, string>)
    | VaultCalled(keyName: string, bytes: Bytes)
    | SendCalled(tx: Transaction)
    | SendAccepted(signature: Signature)
    | AuditCalled(entry: AuditOutcome, stored: bool)

  datatype Call = Call(request: Request, phase: Phase, trace: seq<Event>)

  function Entered(c: Call, phase: Phase): Call {
    c.(phase := phase)
  }

  function Noted(c: Call, event: Event): Call {
    c.(trace := c.trace + [event])
  }

  /** `account_keys[0]`, and every signer's key when there are several, are read before signing. */
  predicate SignersReadable(m: Message) {
    m.accountKeys != [] && (m.numRequiredSignatures > 1 ==> m.numRequiredSignatures <= |m.accountKeys|)
  }

  /** A definitive failure rejects; an RPC error is only advisory. */
  predicate Definitive(verdict: Result<Option<string>, string>) {
    verdict.Ok? && verdict.value.Some?
  }

  function EnterFilling(dep: Deployment, c: Call, tx: Transaction): Call {
    if tx.message.recentBlockhash == DEFAULT_BLOCKHASH then Entered(c, Filling(tx)) else EnterSimulation(dep, c, tx)
  }

  function EnterSimulation(dep: Deployment, c: Call, tx: Transaction): Call {
    if dep.presignDisabled then EnterSigning(dep, c, tx) else Entered(c, Simulating(tx))
  }

  function EnterSigning(dep: Deployment, c: Call, tx: Transaction): Call {
    if !SignersReadable(tx.message) then Entered(c, Panicked)
    else Noted(Entered(c, Signing(tx)), VaultCalled(dep.transitKeyName, dep.messageData(tx.message)))
  }

  function EnterSending(c: Call, tx: Transaction): Call {
    Noted(Entered(c, Sending(tx)), SendCalled(tx))
  }

  /** Decode, policy, and the key decision: no await before the first external call. */
  function Start(dep: Deployment, c: Call): Call {
    match dep.decode(c.request.serialized)
    case None => Entered(c, Returned(Err(InvalidFormat)))
    case Some(tx) =>
      match dep.policyObjection(c.request.identity, tx)
      case Some(reason) => Entered(c, Auditing(Rejected("policy", reason), Err(PolicyRejected(reason))))
      case None =>
        var c := Noted(c, PolicyPassed(c.request.identity, tx));
        if c.request.keyId == PLATFORM_ADMIN then
          EnterFilling(dep, c, tx)
        else if c.request.keyId != "" then
          Entered(c, Auditing(Rejected("auth", "Key ID not authorized: " + c.request.keyId), Err(KeyNotAuthorized(c.request.keyId))))
        else EnterSending(c, tx)
  }

  function WithBlockhash(tx: Transaction, hash: Bytes): Transaction {
    tx.(message := tx.message.(recentBlockhash := hash))
  }

  /** `Vec::resize` up to the required number of signatures. */
  function Padded(signatures: seq<Signature>, n: nat): (r: seq<Signature>)
    ensures |r| == if |signatures| < n then n else |signatures|
  {
    if |signatures| < n then signatures + seq(n - |signatures|, _ => DEFAULT_SIGNATURE) else signatures
  }

  /** Slot 0 is written; with no slot at all the write panics. */
  function AttachSignature(c: Call, tx: Transaction, signature: Signature): Call {
    var padded := Padded(tx.signatures, tx.message.numRequiredSignatures);
    if padded == [] then Entered(c, Panicked)
    else EnterSending(c, tx.(signatures := padded[0 := signature]))
  }

  function Advance(dep: Deployment, c: Call, a: Answer): Call {
    match (c.phase, a)
    case (Ready, Begin) => Start(dep, c)
    case (Filling(tx), Blockhash(hash)) =>
      if hash.Ok? then EnterSimulation(dep, c, WithBlockhash(tx, hash.value))
      else Entered(c, Returned(Err(BlockhashRefreshFailed(hash.error))))
    case (Simulating(tx), Simulation(verdict)) =>
      var c := Noted(c, Simulated(tx, verdict));
      if Definitive(verdict)
      then Entered(c, Auditing(Rejected("simulation", verdict.value.value), Err(SimulationRejected(verdict.value.value))))
      else EnterSigning(dep, c, tx)
    case (Signing(tx), VaultSignature(signature)) =>
      if signature.Ok? then AttachSignature(c, tx, signature.value)
      else Entered(c, Returned(Err(VaultSigningFailed(signature.error))))
    case (Sending(tx), Sent(signature)) =>
      if signature.Ok?
      then Entered(Noted(c, SendAccepted(signature.value)), Auditing(Submitted(signature.value, 0), Ok(signature.value)))
      else Entered(c, Auditing(Rejected("submit", signature.error), Err(SubmissionFailed(signature.error))))
    case (Auditing(entry, outcome), Appended(ok)) =>
      Entered(Noted(c, AuditCalled(entry, ok)), Returned(outcome))
    case _ => c
  }

  // ---- One call under every answer sequence ------------------------------------------------

  function Drive(dep: Deployment, request: Request, answers: seq<Answer>): Call {
    if answers == [] then Call(request, Ready, [])
    else Advance(dep, Drive(dep, request, answers[..|answers| - 1]), answers[|answers| - 1])
  }

  /** The received transaction with at most a default blockhash filled in. */
  ghost predicate FilledFrom(received: Transaction, tx: Transaction) {
    && tx.signatures == received.signatures
    && tx.message == received.message.(recentBlockhash := tx.message.recentBlockhash)
    && (received.message.recentBlockhash != DEFAULT_BLOCKHASH ==> tx.message == received.message)
  }

  /** The filled transaction signed in slot 0, padded with default signatures, otherwise untouched. */
  ghost predicate SignedFrom(filled: Transaction, tx: Transaction) {
    && tx.message == filled.message
    && |tx.signatures| >= 1 && |tx.signatures| >= |filled.signatures|
    && |tx.signatures| >= filled.message.numRequiredSignatures
    && (forall i :: 1 <= i < |filled.signatures| ==> tx.signatures[i] == filled.signatures[i])
    && (forall i :: 1 <= i < |tx.signatures| && i >= |filled.signatures| ==> tx.signatures[i] == DEFAULT_SIGNATURE)
  }

  ghost predicate Passed(dep: Deployment, r: Request, received: Transaction) {
    dep.decode(r.serialized) == Some(received) && dep.policyObjection(r.identity, received) == None
  }

  ghost function Vault(dep: Deployment, filled: Transaction): Event {
    VaultCalled(dep.transitKeyName, dep.messageData(filled.message))
  }

  /** The calls before Vault: policy and, unless disabled, a simulation of the filled transaction. */
  ghost function Preflight(dep: Deployment, r: Request, received: Transaction, filled: Transaction,
                           verdict: Result<Option<string>, string>): seq<Event>
  {
    if dep.presignDisabled then [PolicyPassed(r.identity, received)]
    else [PolicyPassed(r.identity, received), Simulated(filled, verdict)]
  }

  /** The calls made up to and including the send, for a request that got that far. */
  ghost predicate SentTrace(dep: Deployment, r: Request, received: Transaction, filled: Transaction,
                            verdict: Result<Option<string>, string>, sent: Transaction, trace: seq<Event>)
  {
    && Passed(dep, r, received)
    && (r.keyId == "" ==> sent == received && trace == [PolicyPassed(r.identity, received), SendCalled(sent)])
    && (r.keyId != "" ==>
          && r.keyId == PLATFORM_ADMIN && FilledFrom(received, filled) && SignedFrom(filled, sent) && !Definitive(verdict)
          && trace == Preflight(dep, r, received, filled, verdict) + [Vault(dep, filled), SendCalled(sent)])
  }

  /** Policy passed, nothing else called yet. */
  ghost predicate Cleared(dep: Deployment, r: Request, tx: Transaction, trace: seq<Event>) {
    && r.keyId == PLATFORM_ADMIN
    && exists received :: Passed(dep, r, received) && FilledFrom(received, tx) && trace == [PolicyPassed(r.identity, received)]
  }

  /** Every call that must precede Vault has been made, and none objected. */
  ghost predicate BeforeSigning(dep: Deployment, r: Request, tx: Transaction, trace: seq<Event>) {
    && r.keyId == PLATFORM_ADMIN
    && exists received, verdict ::
         Passed(dep, r, received) && FilledFrom(received, tx) && !Definitive(verdict)
         && trace == Preflight(dep, r, received, tx, verdict)
  }

  ghost predicate VaultCalledFor(dep: Deployment, r: Request, tx: Transaction, trace: seq<Event>) {
    trace != [] && trace[|trace| - 1] == Vault(dep, tx) && BeforeSigning(dep, r, tx, trace[..|trace| - 1])
  }

  ghost predicate HasSent(dep: Deployment, r: Request, sent: Transaction, trace: seq<Event>) {
    exists received, filled, verdict :: SentTrace(dep, r, received, filled, verdict, sent, trace)
  }

  ghost predicate HasSentSome(dep: Deployment, r: Request, trace: seq<Event>) {
    exists sent :: HasSent(dep, r, sent, trace)
  }

  /** What the trace of a call looks like in each phase. */
  ghost predicate CallOk(dep: Deployment, c: Call) {
    match c.phase
    case Ready => c.trace == []
    case Filling(tx) => Cleared(dep, c.request, tx, c.trace) && tx.message.recentBlockhash == DEFAULT_BLOCKHASH
    case Simulating(tx) => Cleared(dep, c.request, tx, c.trace) && !dep.presignDisabled
    case Signing(tx) => VaultCalledFor(dep, c.request, tx, c.trace)
    case Sending(tx) => HasSent(dep, c.request, tx, c.trace)
    case Auditing(entry, outcome) => EndingOk(dep, c.request, entry, outcome, c.trace)
    case Returned(outcome) =>
      || UnauditedOk(dep, c.request, outcome, c.trace)
      || (&& c.trace != [] && c.trace[|c.trace| - 1].AuditCalled?
          && EndingOk(dep, c.request, c.trace[|c.trace| - 1].entry, outcome, c.trace[..|c.trace| - 1]))
    case Panicked =>
      || (exists tx :: BeforeSigning(dep, c.request, tx, c.trace) && !SignersReadable(tx.message))
      || (exists tx :: VaultCalledFor(dep, c.request, tx, c.trace)
                       && tx.signatures == [] && tx.message.numRequiredSignatures == 0)
  }

  /** The audit entry of each audited ending: its stage, and the reason the caller is given. */
  ghost predicate EntryFits(entry: AuditOutcome, outcome: Outcome) {
    match outcome
    case Ok(signature) => entry == Submitted(signature, 0)
    case Err(PolicyRejected(reason)) => entry == Rejected("policy", reason)
    case Err(SimulationRejected(reason)) => entry == Rejected("simulation", reason)
    case Err(KeyNotAuthorized(keyId)) => entry == Rejected("auth", "Key ID not authorized: " + keyId)
    case Err(SubmissionFailed(error)) => entry == Rejected("submit", error)
    case _ => false
  }

  /** Endings with an audit entry: policy, simulation and key rejections, and both send results. */
  ghost predicate EndingOk(dep: Deployment, r: Request, entry: AuditOutcome, outcome: Outcome, trace: seq<Event>) {
    EntryFits(entry, outcome) &&
    match outcome
    case Ok(signature) =>
      && trace != [] && trace[|trace| - 1] == SendAccepted(signature)
      && HasSentSome(dep, r, trace[..|trace| - 1])
    case Err(SubmissionFailed(_)) => HasSentSome(dep, r, trace)
    case Err(SimulationRejected(reason)) =>
      && |trace| == 2 && trace[1].Simulated? && trace[1].verdict == Ok(Some(reason))
      && Cleared(dep, r, trace[1].tx, trace[..1])
    case Err(PolicyRejected(reason)) =>
      && trace == []
      && exists received :: dep.decode(r.serialized) == Some(received) && dep.policyObjection(r.identity, received) == Some(reason)
    case Err(KeyNotAuthorized(keyId)) =>
      && keyId == r.keyId && keyId != "" && keyId != PLATFORM_ADMIN
      && exists received :: Passed(dep, r, received) && trace == [PolicyPassed(r.identity, received)]
    case _ => false
  }

  /** Endings that leave no audit entry: undecodable bytes, no blockhash, no Vault signature. */
  ghost predicate UnauditedOk(dep: Deployment, r: Request, outcome: Outcome, trace: seq<Event>) {
    match outcome
    case Err(InvalidFormat) => trace == [] && dep.decode(r.serialized) == None
    case Err(BlockhashRefreshFailed(_)) => exists tx :: Cleared(dep, r, tx, trace)
    case Err(VaultSigningFailed(_)) => exists tx :: VaultCalledFor(dep, r, tx, trace)
    case _ => false
  }
}
