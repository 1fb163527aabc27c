/**
 Who gets past the consumer's gates, stated over the envelope's own fields, the signing
 configuration and the two maps: for deliveries and for cancels, in both directions.
 */
module ConsumerAdmission {
  import opened Common
  import opened EnvelopeAuthentication
  import opened Deployment
  import opened Dedup
  import opened Consumer
  import opened ConsumerExclusion

  // ---- What is demanded -------------------------------------------------------------------

  /** Signing is demanded of every mint, and of a submit when it is enforced. */
  ghost predicate Signed(dep: Deployment, enforced: bool, caDer: Option<Bytes>, e: Envelope, nowMs: nat) {
    enforced || e.body.MintEnergy? ==>
      Authentic(dep.crypto, caDer, e.auth, e.serviceIdentity, dep.canonicalBytes(e), nowMs / 1000)
  }

  /** Any known role may submit; only the aggregator bridge and the meter service may mint. */
  ghost predicate RolePermits(dep: Deployment, e: Envelope) {
    if e.body.SubmitTx? then dep.roleOf(e.serviceIdentity) != Unknown
    else dep.requireAny(dep.roleOf(e.serviceIdentity), [AggregatorBridge, MeterService])
  }

  ghost predicate IsFresh(e: Envelope, nowMs: nat) {
    nowMs <= e.createdAtMs + 55_000
  }

  ghost predicate Decodes(dep: Deployment, e: Envelope) {
    e.body.SubmitTx? ==> dep.decode(e.body.serializedTx).Some?
  }

  ghost predicate PolicyPasses(dep: Deployment, e: Envelope)
    requires Decodes(dep, e)
  {
    e.body.SubmitTx? ==> dep.policyObjection(e.serviceIdentity, dep.decode(e.body.serializedTx).value) == None
  }

  ghost predicate KeyPermitted(e: Envelope) {
    e.body.SubmitTx? ==> e.body.keyId == "platform_admin" || e.body.keyId == ""
  }

  ghost predicate Authorised(dep: Deployment, enforced: bool, caDer: Option<Bytes>, e: Envelope, nowMs: nat) {
    && Signed(dep, enforced, caDer, e, nowMs) && RolePermits(dep, e) && IsFresh(e, nowMs)
    && Decodes(dep, e) && PolicyPasses(dep, e) && KeyPermitted(e)
  }

  ghost predicate CancelAuthorised(dep: Deployment, enforced: bool, caDer: Option<Bytes>, c: CancelEnvelope, nowMs: nat) {
    && (enforced ==> Authentic(dep.crypto, caDer, c.auth, c.serviceIdentity, dep.canonicalCancelBytes(c), nowMs / 1000))
    && dep.roleOf(c.serviceIdentity) != Unknown
    && nowMs <= c.createdAtMs + 55_000
  }

  /** The policy object was built from this configuration. */
  ghost predicate Configured(dep: Deployment, requireSigned: bool, caDer: Option<Bytes>) {
    dep.authPolicy == NewPolicy(requireSigned, caDer)
  }

  /** Enforcement takes both the switch and a CA; the CA is kept as loaded. */
  lemma EnforcedIff(requireSigned: bool, caDer: Option<Bytes>)
    ensures NewPolicy(requireSigned, caDer).requireSigned <==> requireSigned && caDer.Some?
    ensures NewPolicy(requireSigned, caDer).caDer == caDer
  {
  }

  lemma SignedIff(dep: Deployment, e: Envelope, nowMs: nat)
    ensures Signed(dep, dep.authPolicy.requireSigned, dep.authPolicy.caDer, e, nowMs)
       <==> AuthAccepts(AuthOf(dep, e, nowMs), dep.authPolicy.requireSigned || e.body.MintEnergy?)
  {
    VerifiedIffGenuine(dep.crypto, dep.authPolicy.caDer, e.auth, e.serviceIdentity, dep.canonicalBytes(e), nowMs / 1000);
  }

  lemma GatesIff(dep: Deployment, seen: bool, e: Envelope, nowMs: nat)
    ensures Gates(dep, seen, e, nowMs) == Proceed
       <==> !seen && Authorised(dep, dep.authPolicy.requireSigned, dep.authPolicy.caDer, e, nowMs)
  {
    SignedIff(dep, e, nowMs);
  }

  lemma CancelGatesIff(dep: Deployment, seen: bool, c: CancelEnvelope, nowMs: nat)
    ensures CancelGates(dep, seen, c, nowMs) == Proceed
       <==> !seen && CancelAuthorised(dep, dep.authPolicy.requireSigned, dep.authPolicy.caDer, c, nowMs)
  {
    VerifiedIffGenuine(dep.crypto, dep.authPolicy.caDer, c.auth, c.serviceIdentity, dep.canonicalCancelBytes(c), nowMs / 1000);
  }

  // ---- Deliveries -------------------------------------------------------------------------

  /** The store key of a protected envelope. */
  function KeyText(e: Envelope): string {
    (if e.body.SubmitTx? then "submit:" else "mint:") + e.idempotencyKey
  }

  /** A record under the envelope's key that the reading still finds alive. */
  ghost predicate Recorded(s: State, e: Envelope, nowMs: nat) {
    e.idempotencyKey != "" && Live(s.dedup, KeyText(e), nowMs)
  }

  ghost predicate Admitted(s: State, t: State, e: Envelope, nowMs: nat) {
    && t.runs == s.runs + [Run(e, if e.idempotencyKey == "" then None else Some(KeyText(e)), nowMs, s.clockMs, Working(0))]
    && t.replies == s.replies
    && t.dedup == if e.idempotencyKey == "" then s.dedup else s.dedup[KeyText(e) := DedupRecord(nowMs + 120_000, InFlight)]
  }

  /** Nothing but the reading and one reply. */
  ghost predicate Answered(s: State, t: State, e: Envelope, nowMs: nat, result: TxResult) {
    t == s.(readMs := nowMs, replies := s.replies + [Reply(e, result)])
  }

  /**
   A delivery becomes a run if and only if the envelope is authorised under the configuration, its
   correlation id is not in the map and its key has no live record; otherwise neither the runs nor
   the dedup store change.
   */
  lemma AdmittedIff(dep: Deployment, requireSigned: bool, caDer: Option<Bytes>, s: State, e: Envelope, nowMs: nat)
    requires Configured(dep, requireSigned, caDer) && s.readMs <= nowMs <= s.clockMs
    ensures var t := Step(dep, s, Deliver(e, nowMs));
            var passes := && Authorised(dep, requireSigned && caDer.Some?, caDer, e, nowMs)
                          && e.correlationId !in s.cache && !Recorded(s, e, nowMs);
      (passes ==> Admitted(s, t, e, nowMs)) && (!passes ==> t.runs == s.runs && t.dedup == s.dedup)
  {
    EnforcedIff(requireSigned, caDer);
    GatesIff(dep, e.correlationId in s.cache, e, nowMs);
    KeysNamespaced(e, e);
  }

  /** An authorised new envelope whose key is on record gets the record's answer, under its own id. */
  lemma RecordedIsReplayed(dep: Deployment, requireSigned: bool, caDer: Option<Bytes>, s: State, e: Envelope, nowMs: nat)
    requires Configured(dep, requireSigned, caDer) && s.readMs <= nowMs <= s.clockMs
    requires Authorised(dep, requireSigned && caDer.Some?, caDer, e, nowMs) && e.correlationId !in s.cache
    requires Recorded(s, e, nowMs)
    ensures var t := Step(dep, s, Deliver(e, nowMs));
      match s.dedup[KeyText(e)].state
      case Done(signature, slot) => Answered(s, t, e, nowMs, TxResult(e.correlationId, true, signature, slot, true, None))
      case InFlight => Answered(s, t, e, nowMs, TxResult(e.correlationId, false, None, 0, true,
                                                         Some("Submit already in flight for this idempotency_key")))
  {
    EnforcedIff(requireSigned, caDer);
    GatesIff(dep, false, e, nowMs);
    KeysNamespaced(e, e);
  }

  ghost predicate RefusedWith(s: State, t: State, e: Envelope, nowMs: nat, text: string) {
    Answered(s, t, e, nowMs, TxResult(e.correlationId, false, None, 0, false, Some(text)))
  }

  /**
   A refusal names the first check that failed, in this order: authentication, role, correlation
   id (which is dropped without a reply), staleness, transaction format, policy, key id.
   */
  lemma RefusalNamesFirstFailure(dep: Deployment, requireSigned: bool, caDer: Option<Bytes>, s: State, e: Envelope, nowMs: nat)
    requires Configured(dep, requireSigned, caDer) && s.readMs <= nowMs <= s.clockMs
    ensures var t := Step(dep, s, Deliver(e, nowMs));
            var enforced, seen := requireSigned && caDer.Some?, e.correlationId in s.cache;
      if !Signed(dep, enforced, caDer, e, nowMs) then RefusedWith(s, t, e, nowMs, "envelope authentication failed")
      else if !RolePermits(dep, e) then RefusedWith(s, t, e, nowMs, "Unauthorised service identity")
      else if seen then t == s.(readMs := nowMs)
      else if !IsFresh(e, nowMs) then RefusedWith(s, t, e, nowMs, "Stale")
      else if !Decodes(dep, e) then RefusedWith(s, t, e, nowMs, "Invalid transaction format")
      else if !PolicyPasses(dep, e) then RefusedWith(s, t, e, nowMs, "Policy Engine rejection")
      else if !KeyPermitted(e) then RefusedWith(s, t, e, nowMs, "Key ID not authorized")
      else Authorised(dep, enforced, caDer, e, nowMs)
  {
    EnforcedIff(requireSigned, caDer);
    SignedIff(dep, e, nowMs);
  }

  /**
   Every run that ever gets past the claim, in any interleaving, was authorised at its own reading:
   fresh, from a permitted role, with a policy-clean transaction and an acceptable key, and
   authentic if it is a mint or signing is asked for and a CA is loaded.
   */
  lemma AdmittedRunsAreAuthorised(dep: Deployment, requireSigned: bool, caDer: Option<Bytes>,
                                  clockMs: nat, actions: seq<Action>, i: nat)
    requires Configured(dep, requireSigned, caDer) && i < |Exec(dep, Fresh(clockMs), actions).runs|
    ensures var run := Exec(dep, Fresh(clockMs), actions).runs[i];
      Authorised(dep, requireSigned && caDer.Some?, caDer, run.envelope, run.admittedMs)
  {
    WellFormedExec(dep, clockMs, actions);
    var s := Exec(dep, Fresh(clockMs), actions);
    assert RunOk(dep, s, s.runs[i]);
    EnforcedIff(requireSigned, caDer);
    GatesIff(dep, false, s.runs[i].envelope, s.runs[i].admittedMs);
  }

  /**
   For every signing configuration and every interleaving, a mint run exists only for a genuine
   envelope: valid CA-signed certificate carrying the claimed identity, signature over the
   canonical bytes. Without a CA no mint run exists, although the policy itself is then log-only.
   */
  lemma MintRunsAreGenuine(dep: Deployment, requireSigned: bool, caDer: Option<Bytes>, clockMs: nat, actions: seq<Action>, i: nat)
    requires Configured(dep, requireSigned, caDer) && i < |Exec(dep, Fresh(clockMs), actions).runs|
    requires Exec(dep, Fresh(clockMs), actions).runs[i].envelope.body.MintEnergy?
    ensures var run := Exec(dep, Fresh(clockMs), actions).runs[i];
      && caDer.Some?
      && Genuine(dep.crypto, caDer, run.envelope.auth, run.envelope.serviceIdentity,
                 dep.canonicalBytes(run.envelope), run.admittedMs / 1000)
  {
    AdmittedRunsAreAuthorised(dep, requireSigned, caDer, clockMs, actions, i);
  }

  /**
   What the configuration decides for an unsigned submit that is otherwise in order: a new consumer
   runs it if and only if signing is not asked for or no CA is loaded.
   */
  lemma UnsignedSubmitRunsIff(dep: Deployment, requireSigned: bool, caDer: Option<Bytes>, e: Envelope, nowMs: nat)
    requires Configured(dep, requireSigned, caDer) && e.body.SubmitTx? && e.auth.None?
    requires RolePermits(dep, e) && IsFresh(e, nowMs) && Decodes(dep, e) && PolicyPasses(dep, e) && KeyPermitted(e)
    ensures |Step(dep, Fresh(nowMs), Deliver(e, nowMs)).runs| == 1 <==> !requireSigned || caDer.None?
  {
    AdmittedIff(dep, requireSigned, caDer, Fresh(nowMs), e, nowMs);
  }

  /** The guarantees are per lifetime: after a reconnect any authorised envelope runs, whatever was recorded. */
  lemma ReconnectForgets(dep: Deployment, requireSigned: bool, caDer: Option<Bytes>, s: State, e: Envelope)
    requires Configured(dep, requireSigned, caDer)
    requires Authorised(dep, requireSigned && caDer.Some?, caDer, e, s.clockMs)
    ensures |Step(dep, Step(dep, s, Reconnect), Deliver(e, s.clockMs)).runs| == 1
  {
    AdmittedIff(dep, requireSigned, caDer, Step(dep, s, Reconnect), e, s.clockMs);
  }

  // ---- Cancels ----------------------------------------------------------------------------

  ghost predicate CancelledAt(dep: Deployment, requireSigned: bool, caDer: Option<Bytes>, clockMs: nat, actions: seq<Action>,
                              n: nat, id: string)
  {
    && n < |actions| && actions[n].Cancel? && actions[n].request.correlationId == id
    && CancelAuthorised(dep, requireSigned && caDer.Some?, caDer, actions[n].request,
                        Exec(dep, Fresh(clockMs), actions[..n]).clockMs)
  }

  /**
   In every reachable state each cancelled id was put there by a cancel naming it that was, at its
   time, fresh, from a known role and, if signing is asked for and a CA is loaded, authentic.
   */
  lemma {:induction false} CancelsAreAuthorised(dep: Deployment, requireSigned: bool, caDer: Option<Bytes>,
                                                clockMs: nat, actions: seq<Action>, id: string) returns (n: nat)
    requires Configured(dep, requireSigned, caDer) && id in Exec(dep, Fresh(clockMs), actions).cancelled
    ensures CancelledAt(dep, requireSigned, caDer, clockMs, actions, n, id)
  {
    var last := |actions| - 1;
    var s, a := Exec(dep, Fresh(clockMs), actions[..last]), actions[last];
    if id in s.cancelled {
      n := CancelsAreAuthorised(dep, requireSigned, caDer, clockMs, actions[..last], id);
      assert actions[..last][..n] == actions[..n];
    } else {
      n := last;
      assert a.Cancel?;
      EnforcedIff(requireSigned, caDer);
      CancelGatesIff(dep, CancelMark(a.request.correlationId) in s.cache, a.request, s.clockMs);
    }
  }
}
