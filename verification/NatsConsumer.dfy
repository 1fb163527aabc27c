/**
 The consumer object: the two maps its handlers update in place. Each method is one stretch of a
 handler between two awaits, and is proved to carry the maps along the corresponding machine step.
 */
module NatsConsumer {
  import opened Common
  import opened EnvelopeAuthentication
  import opened Deployment
  import opened Dedup
  import opened Consumer
  import opened ConsumerAdmission

  datatype Admission = Stopped(reply: Option<TxResult>) | Claimed(dedupKey: Option<string>)

  class NatsConsumer {
    const dep: Deployment
    var dedupStore: Store
    var idempotencyCache: map<string, nat>

    constructor (dep: Deployment)
      ensures this.dep == dep && dedupStore == map[] && idempotencyCache == map[]
    {
      this.dep := dep;
      dedupStore, idempotencyCache := map[], map[];
    }

    /** The object's maps are those of the machine state. */
    ghost predicate Represents(s: State)
      reads this
    {
      dedupStore == s.dedup && idempotencyCache == s.cache
    }

    /**
     Either the caller must stop with the returned message and the store is untouched, or the
     caller proceeds and its key (if any) is now claimed for the record lifetime.
     */
    method ClaimOrReplay(dedupKey: Option<string>, correlationId: string, nowMs: nat) returns (prior: Option<TxResult>)
      modifies this`dedupStore
      ensures prior.Some? <==> dedupKey.Some? && Live(old(dedupStore), dedupKey.value, nowMs)
      ensures prior.Some? ==> prior.value.deduplicated && prior.value.correlationId == correlationId
                              && dedupStore == old(dedupStore)
      ensures prior.None? && dedupKey.Some? ==>
                dedupStore == old(dedupStore)[dedupKey.value := DedupRecord(nowMs + DEDUP_TTL_MS, InFlight)]
      ensures prior == ClaimAnswer(old(dedupStore), dedupKey, correlationId, nowMs)
      ensures dedupStore == ClaimStore(old(dedupStore), dedupKey, nowMs)
    {
      if dedupKey.None? {
        return None;
      }
      var key := dedupKey.value;
      if key in dedupStore && dedupStore[key].expiryMs > nowMs {
        var rec := dedupStore[key];
        match rec.state {
          case Done(signature, slot) =>
            prior := Some(TxResult(correlationId, true, signature, slot, true, None));
          case InFlight =>
            prior := Some(TxResult(correlationId, false, None, 0, true,
                                   Some("Submit already in flight for this idempotency_key")));
        }
      } else {
        dedupStore := dedupStore[key := DedupRecord(nowMs + DEDUP_TTL_MS, InFlight)];
        prior := None;
      }
    }

    /** The start of `handle_submit`: gates in order, then the claim. */
    method AdmitSubmit(e: Envelope, nowMs: nat, ghost s: State) returns (admission: Admission)
      requires e.body.SubmitTx? && Represents(s) && s.readMs <= nowMs <= s.clockMs
      modifies this`dedupStore
      ensures Represents(DeliverStep(dep, s, e, nowMs))
      ensures Reports(admission, s, DeliverStep(dep, s, e, nowMs))
      ensures admission.Claimed? <==>
        && Authorised(dep, dep.authPolicy.requireSigned, dep.authPolicy.caDer, e, nowMs)
        && e.correlationId !in idempotencyCache
        && (e.idempotencyKey == "" || !Live(old(dedupStore), "submit:" + e.idempotencyKey, nowMs))
      ensures admission.Claimed? ==>
        admission.dedupKey == if e.idempotencyKey == "" then None else Some("submit:" + e.idempotencyKey)
    {
      GatesIff(dep, e.correlationId in idempotencyCache, e, nowMs);
      if dep.authPolicy.requireSigned && !AuthOf(dep, e, nowMs).Verified? {
        return Stopped(Some(Refusal(e.correlationId, AuthFailed)));
      }
      if dep.roleOf(e.serviceIdentity) == Unknown {
        return Stopped(Some(Refusal(e.correlationId, RoleDenied)));
      }
      if e.correlationId in idempotencyCache {
        return Stopped(None);
      }
      if SaturatingSub(nowMs, e.createdAtMs) > STALE_AFTER_MS {
        return Stopped(Some(Refusal(e.correlationId, Stale)));
      }
      var decoded := dep.decode(e.body.serializedTx);
      if decoded.None? {
        return Stopped(Some(Refusal(e.correlationId, Malformed)));
      }
      if dep.policyObjection(e.serviceIdentity, decoded.value).Some? {
        return Stopped(Some(Refusal(e.correlationId, PolicyDenied)));
      }
      if e.body.keyId != PLATFORM_ADMIN && e.body.keyId != "" {
        return Stopped(Some(Refusal(e.correlationId, KeyDenied)));
      }
      var dedupKey := if e.idempotencyKey == "" then None else Some("submit:" + e.idempotencyKey);
      var prior := ClaimOrReplay(dedupKey, e.correlationId, nowMs);
      admission := if prior.Some? then Stopped(prior) else Claimed(dedupKey);
    }

    /** The start of `handle_mint`: signing is forced, whatever the policy says. */
    method AdmitMint(e: Envelope, nowMs: nat, ghost s: State) returns (admission: Admission)
      requires e.body.MintEnergy? && Represents(s) && s.readMs <= nowMs <= s.clockMs
      modifies this`dedupStore
      ensures Represents(DeliverStep(dep, s, e, nowMs))
      ensures Reports(admission, s, DeliverStep(dep, s, e, nowMs))
      ensures admission.Claimed? <==>
        && Authorised(dep, dep.authPolicy.requireSigned, dep.authPolicy.caDer, e, nowMs)
        && e.correlationId !in idempotencyCache
        && (e.idempotencyKey == "" || !Live(old(dedupStore), "mint:" + e.idempotencyKey, nowMs))
      ensures admission.Claimed? ==>
        admission.dedupKey == if e.idempotencyKey == "" then None else Some("mint:" + e.idempotencyKey)
    {
      GatesIff(dep, e.correlationId in idempotencyCache, e, nowMs);
      if !AuthOf(dep, e, nowMs).Verified? {
        return Stopped(Some(Refusal(e.correlationId, AuthFailed)));
      }
      if !dep.requireAny(dep.roleOf(e.serviceIdentity), [AggregatorBridge, MeterService]) {
        return Stopped(Some(Refusal(e.correlationId, RoleDenied)));
      }
      if e.correlationId in idempotencyCache {
        return Stopped(None);
      }
      if SaturatingSub(nowMs, e.createdAtMs) > STALE_AFTER_MS {
        return Stopped(Some(Refusal(e.correlationId, Stale)));
      }
      var dedupKey := if e.idempotencyKey == "" then None else Some("mint:" + e.idempotencyKey);
      var prior := ClaimOrReplay(dedupKey, e.correlationId, nowMs);
      admission := if prior.Some? then Stopped(prior) else Claimed(dedupKey);
    }

    /** A claim is a new run, a stop is no new run, and the reply sent is the one in the history. */
    static ghost predicate Reports(admission: Admission, s: State, t: State) {
      match admission
      case Claimed(key) =>
        && |t.runs| == |s.runs| + 1 && t.replies == s.replies && t.runs[|s.runs|].key == key
      case Stopped(reply) =>
        && t.runs == s.runs
        && |t.replies| == |s.replies| + (if reply.Some? then 1 else 0)
        && (reply.Some? ==> t.replies[|s.replies|].result == reply.value)
    }

    /** The end of both handlers, after the last attempt of run `i` returned `result`. */
    method Complete(correlationId: string, dedupKey: Option<string>, nowMs: nat,
                    result: Result<(Signature, nat), string>, ghost s: State, ghost i: nat) returns (reply: TxResult)
      requires Represents(s) && i < |s.runs| && s.runs[i].phase.Working?
      requires s.runs[i].envelope.correlationId == correlationId && s.runs[i].key == dedupKey
      requires s.runs[i].admittedMs == nowMs && (result.Ok? || !WillRetry(s.runs[i]))
      modifies this
      ensures Represents(AttemptStep(s, i, result))
      ensures AttemptStep(s, i, result).replies == s.replies + [Reply(s.runs[i].envelope, reply)]
      ensures result.Ok? <==> AttemptStep(s, i, result).runs[i].phase.Succeeded?
      ensures idempotencyCache == if result.Ok? then old(idempotencyCache)[correlationId := nowMs + 60_000]
                                  else old(idempotencyCache)
      ensures dedupStore == if dedupKey.None? then old(dedupStore)
                            else if result.Err? then old(dedupStore) - {dedupKey.value}
                            else old(dedupStore)[dedupKey.value := DedupRecord(nowMs + 120_000,
                                                   Done(Some(result.value.0), result.value.1))]
      ensures reply == if result.Ok? then TxResult(correlationId, true, Some(result.value.0), result.value.1, false, None)
                       else TxResult(correlationId, false, None, 0, false, Some(result.error))
    {
      match result {
        case Ok(v) =>
          idempotencyCache := idempotencyCache[correlationId := nowMs + CACHE_TTL_MS];
          if dedupKey.Some? {
            dedupStore := dedupStore[dedupKey.value := DedupRecord(nowMs + DEDUP_TTL_MS, Done(Some(v.0), v.1))];
          }
          reply := TxResult(correlationId, true, Some(v.0), v.1, false, None);
        case Err(e) =>
          if dedupKey.Some? {
            dedupStore := dedupStore - {dedupKey.value};
          }
          reply := TxResult(correlationId, false, None, 0, false, Some(e));
      }
    }

    /** `handle_cancel`: returns whether the cancel was accepted. */
    method HandleCancel(c: CancelEnvelope, nowMs: nat, ghost s: State) returns (accepted: bool)
      requires Represents(s) && s.clockMs == nowMs
      modifies this`idempotencyCache
      ensures Represents(CancelStep(dep, s, c))
      ensures accepted ==> c.correlationId in CancelStep(dep, s, c).cancelled
      ensures accepted <==>
        && CancelAuthorised(dep, dep.authPolicy.requireSigned, dep.authPolicy.caDer, c, nowMs)
        && "cancel:" + c.correlationId !in old(idempotencyCache)
      ensures idempotencyCache == if !accepted then old(idempotencyCache)
                                  else old(idempotencyCache)["cancel:" + c.correlationId := nowMs + 60_000]
                                                            [c.correlationId := nowMs + 60_000]
    {
      CancelGatesIff(dep, CancelMark(c.correlationId) in idempotencyCache, c, nowMs);
      var check := CheckEnvelopeAuth(dep.crypto, dep.authPolicy.caDer, c.auth, c.serviceIdentity,
                                     dep.canonicalCancelBytes(c), nowMs / 1000);
      if dep.authPolicy.requireSigned && !check.Verified? {
        return false;
      }
      if dep.roleOf(c.serviceIdentity) == Unknown {
        return false;
      }
      var mark := CancelMark(c.correlationId);
      if mark in idempotencyCache {
        return false;
      }
      if SaturatingSub(nowMs, c.createdAtMs) > STALE_AFTER_MS {
        return false;
      }
      idempotencyCache := idempotencyCache[mark := nowMs + CACHE_TTL_MS];
      idempotencyCache := idempotencyCache[c.correlationId := nowMs + CACHE_TTL_MS];
      return true;
    }

    /** One pass of the sweep: `retain` visits every record once, in no particular order. */
    method SweepDedup(nowMs: nat)
      modifies this`dedupStore
      ensures dedupStore == Swept(old(dedupStore), nowMs, old(dedupStore).Keys)
      ensures forall k :: k in dedupStore <==> Live(old(dedupStore), k, nowMs)
      ensures forall k :: k in dedupStore ==> dedupStore[k] == old(dedupStore)[k]
    {
      var pending := dedupStore.Keys;
      while pending != {}
        invariant pending <= old(dedupStore).Keys && pending <= dedupStore.Keys
        invariant dedupStore == Swept(old(dedupStore), nowMs, old(dedupStore).Keys - pending)
        decreases |pending|
      {
        var k :| k in pending;
        pending := pending - {k};
        if dedupStore[k].expiryMs <= nowMs {
          dedupStore := dedupStore - {k};
        }
      }
    }
  }

  function FirstResults(attempt: nat -> Result<(Signature, nat), string>, n: nat): (results: seq<Result<(Signature, nat), string>>)
    ensures |results| == n && forall k: nat :: k < n ==> results[k] == attempt(k)
  {
    seq(n, k requires 0 <= k => attempt(k))
  }

  /**
   The retry loop: one attempt plus at most three retries, stopping at the first success;
   `attempt(n)` is what the n-th call of the signing service returns.
   */
  method SubmitWithRetries(attempt: nat -> Result<(Signature, nat), string>)
    returns (result: Result<(Signature, nat), string>, calls: nat)
    ensures 1 <= calls <= 4 && result == attempt(calls - 1)
    ensures forall n: nat :: n < calls - 1 ==> attempt(n).Err?
    ensures result.Ok? || calls == 4
    ensures LoopEnd(FirstResults(attempt, calls), 3) == Some(result)
  {
    result, calls := attempt(0), 1;
    while result.Err? && calls < 1 + MAX_RETRIES
      invariant 1 <= calls <= 1 + MAX_RETRIES && result == attempt(calls - 1)
      invariant forall n: nat :: n < calls - 1 ==> attempt(n).Err?
    {
      result := attempt(calls);
      calls := calls + 1;
    }
    LoopEndOfRun(attempt, calls - 1);
  }

  lemma {:induction false} LoopGoesOn(attempt: nat -> Result<(Signature, nat), string>, n: nat)
    requires n <= MAX_RETRIES && forall k: nat :: k < n ==> attempt(k).Err?
    ensures LoopEnd(FirstResults(attempt, n), MAX_RETRIES).None?
  {
    if n > 0 {
      LoopGoesOn(attempt, n - 1);
      LoopEndAppend(FirstResults(attempt, n - 1), MAX_RETRIES, attempt(n - 1));
      assert FirstResults(attempt, n) == FirstResults(attempt, n - 1) + [attempt(n - 1)];
    }
  }

  lemma LoopEndOfRun(attempt: nat -> Result<(Signature, nat), string>, n: nat)
    requires n <= MAX_RETRIES && forall k: nat :: k < n ==> attempt(k).Err?
    requires attempt(n).Ok? || n == MAX_RETRIES
    ensures LoopEnd(FirstResults(attempt, n + 1), MAX_RETRIES) == Some(attempt(n))
  {
    LoopGoesOn(attempt, n);
    LoopEndAppend(FirstResults(attempt, n), MAX_RETRIES, attempt(n));
    assert FirstResults(attempt, n + 1) == FirstResults(attempt, n) + [attempt(n)];
  }

  function Attempts(i: nat, attempt: nat -> Result<(Signature, nat), string>, n: nat): seq<Action> {
    if n == 0 then [] else Attempts(i, attempt, n - 1) + [AttemptDone(i, attempt(n - 1))]
  }

  ghost predicate Retrying(s: State, i: nat, failures: nat) {
    i < |s.runs| && s.runs[i].phase == Working(failures) && s.runs[i].envelope.body.SubmitTx?
  }

  ghost function WithFailures(s: State, i: nat, failures: nat): State
    requires i < |s.runs|
  {
    s.(runs := s.runs[i := s.runs[i].(phase := Working(failures))])
  }

  lemma RetryOnlyCounts(s: State, i: nat, error: string)
    requires i < |s.runs| && s.runs[i].phase.Working? && Retrying(s, i, s.runs[i].phase.failures)
    requires s.runs[i].phase.failures < MAX_RETRIES
    ensures AttemptStep(s, i, Err(error)) == WithFailures(s, i, s.runs[i].phase.failures + 1)
  {
  }

  /** Failing attempts that will be retried change nothing but the run's failure count. */
  lemma {:induction false} RetriesOnlyCount(dep: Deployment, s: State, i: nat,
                                            attempt: nat -> Result<(Signature, nat), string>, n: nat)
    requires Retrying(s, i, 0) && n <= MAX_RETRIES && forall m: nat :: m < n ==> attempt(m).Err?
    ensures Exec(dep, s, Attempts(i, attempt, n)) == WithFailures(s, i, n)
  {
    if n == 0 {
      assert s.runs[i := s.runs[i]] == s.runs;
    } else {
      RetriesOnlyCount(dep, s, i, attempt, n - 1);
      ExecAppend(dep, s, Attempts(i, attempt, n - 1), AttemptDone(i, attempt(n - 1)));
      RetryOnlyCounts(WithFailures(s, i, n - 1), i, attempt(n - 1).error);
    }
  }

  /** The state `t` in which run `i` has ended with `result`, everything else as in `s`. */
  ghost predicate RunEnded(s: State, t: State, i: nat, result: Result<(Signature, nat), string>)
    requires i < |s.runs|
  {
    if result.Ok? then RunSucceeded(s, t, i, result.value.0, result.value.1) else RunFailed(s, t, i, result.error)
  }

  /** The effect is on record for 120 seconds from admission, the id is blocked, the reply carries both. */
  ghost predicate RunSucceeded(s: State, t: State, i: nat, signature: Signature, slot: nat)
    requires i < |s.runs|
  {
    var run, id := s.runs[i], s.runs[i].envelope.correlationId;
    t == s.(runs := s.runs[i := run.(phase := Succeeded(signature, slot, s.clockMs))],
            dedup := if run.key.None? then s.dedup
                     else s.dedup[run.key.value := DedupRecord(run.admittedMs + 120_000, Done(Some(signature), slot))],
            cache := s.cache[id := run.admittedMs + 60_000],
            replies := s.replies + [Reply(run.envelope, TxResult(id, true, Some(signature), slot, false, None))])
  }

  /** The claim is released, the id stays open, the reply carries the error. */
  ghost predicate RunFailed(s: State, t: State, i: nat, error: string)
    requires i < |s.runs|
  {
    var run, id := s.runs[i], s.runs[i].envelope.correlationId;
    t == s.(runs := s.runs[i := run.(phase := GaveUp(s.clockMs))],
            dedup := if run.key.None? then s.dedup else s.dedup - {run.key.value},
            replies := s.replies + [Reply(run.envelope, TxResult(id, false, None, 0, false, Some(error)))])
  }

  lemma LastAttemptEnds(s: State, i: nat, result: Result<(Signature, nat), string>)
    requires i < |s.runs| && s.runs[i].phase.Working? && (result.Ok? || !WillRetry(s.runs[i]))
    ensures RunEnded(s, AttemptStep(s, i, result), i, result)
  {
  }

  lemma EndedWithFailures(s: State, t: State, i: nat, failures: nat, result: Result<(Signature, nat), string>)
    requires i < |s.runs| && RunEnded(WithFailures(s, i, failures), t, i, result)
    ensures RunEnded(s, t, i, result)
  {
  }

  lemma RetriedAttemptEnds(s: State, retried: State, i: nat, failures: nat, result: Result<(Signature, nat), string>)
    requires i < |s.runs| && retried == WithFailures(s, i, failures)
    requires result.Ok? || failures == MAX_RETRIES
    ensures RunEnded(s, AttemptStep(retried, i, result), i, result)
  {
    LastAttemptEnds(retried, i, result);
    EndedWithFailures(s, AttemptStep(retried, i, result), i, failures, result);
  }

  lemma AttemptsStep(dep: Deployment, s: State, i: nat, attempt: nat -> Result<(Signature, nat), string>, n: nat)
    ensures Exec(dep, s, Attempts(i, attempt, n + 1)) == AttemptStep(Exec(dep, s, Attempts(i, attempt, n)), i, attempt(n))
  {
    ExecAppend(dep, s, Attempts(i, attempt, n), AttemptDone(i, attempt(n)));
  }

  /**
   The machine's view of a whole uninterrupted retry loop: after the calls the loop makes, the run
   has ended with what the loop returned. The retries themselves touch neither map and answer
   nothing: both maps and the one reply are those of the last attempt alone.
   */
  lemma RetryLoopEndsTheRun(dep: Deployment, s: State, i: nat,
                            attempt: nat -> Result<(Signature, nat), string>, calls: nat)
    requires Retrying(s, i, 0)
    requires 1 <= calls <= 1 + MAX_RETRIES && forall n: nat :: n < calls - 1 ==> attempt(n).Err?
    requires attempt(calls - 1).Ok? || calls == 1 + MAX_RETRIES
    ensures RunEnded(s, Exec(dep, s, Attempts(i, attempt, calls)), i, attempt(calls - 1))
  {
    RetriesOnlyCount(dep, s, i, attempt, calls - 1);
    RetriedAttemptEnds(s, Exec(dep, s, Attempts(i, attempt, calls - 1)), i, calls - 1, attempt(calls - 1));
    AttemptsStep(dep, s, i, attempt, calls - 1);
  }

  // ---- The loop among other actions ---------------------------------------------------------

  /** What a retry loop with `retries` left returns once `results` are in; none while it goes on. */
  function LoopEnd(results: seq<Result<(Signature, nat), string>>, retries: nat): Option<Result<(Signature, nat), string>> {
    if results == [] then None
    else if results[0].Ok? || retries == 0 then Some(results[0])
    else LoopEnd(results[1..], retries - 1)
  }

  lemma {:induction false} LoopEndAppend(results: seq<Result<(Signature, nat), string>>, retries: nat,
                                         last: Result<(Signature, nat), string>)
    ensures LoopEnd(results, retries).Some? ==> LoopEnd(results + [last], retries) == LoopEnd(results, retries)
    ensures LoopEnd(results, retries).None? ==>
      && |results| <= retries
      && LoopEnd(results + [last], retries) == if last.Ok? || |results| == retries then Some(last) else None
  {
    if results != [] {
      assert (results + [last])[1..] == results[1..] + [last];
      if results[0].Err? && retries > 0 { LoopEndAppend(results[1..], retries - 1, last); }
    }
  }

  /** What the attempts of run `i` returned, in order. */
  function ResultsOf(actions: seq<Action>, i: nat): seq<Result<(Signature, nat), string>> {
    if actions == [] then []
    else
      var before, a := ResultsOf(actions[..|actions| - 1], i), actions[|actions| - 1];
      if a.AttemptDone? && a.run == i then before + [a.result] else before
  }

  ghost predicate AtLoopEnd(run: Run, results: seq<Result<(Signature, nat), string>>) {
    match LoopEnd(results, 3)
    case None => run.phase == Working(|results|)
    case Some(Ok(v)) => run.phase.Succeeded? && run.phase.signature == v.0 && run.phase.slot == v.1
    case Some(Err(_)) => run.phase.GaveUp?
  }

  lemma StepAtLoopEnd(dep: Deployment, s: State, a: Action, i: nat, results: seq<Result<(Signature, nat), string>>)
    requires i < |s.runs| && s.runs[i].envelope.body.SubmitTx? && AtLoopEnd(s.runs[i], results) && a != Reconnect
    ensures var t := Step(dep, s, a);
      && i < |t.runs| && t.runs[i].envelope == s.runs[i].envelope
      && AtLoopEnd(t.runs[i], if a.AttemptDone? && a.run == i then results + [a.result] else results)
  {
    if a.AttemptDone? && a.run == i { LoopEndAppend(results, MAX_RETRIES, a.result); }
  }

  /**
   Whatever other handlers, the sweep and the clock do in between: a submit run is where the retry
   loop is after the same results. It ends with the first success, or with the fourth failure.
   */
  lemma {:induction false} InterleavedRetryLoop(dep: Deployment, s: State, i: nat, actions: seq<Action>)
    requires Retrying(s, i, 0) && Reconnect !in actions
    ensures var t := Exec(dep, s, actions);
      i < |t.runs| && t.runs[i].envelope == s.runs[i].envelope && AtLoopEnd(t.runs[i], ResultsOf(actions, i))
  {
    if actions != [] {
      var n := |actions| - 1;
      InterleavedRetryLoop(dep, s, i, actions[..n]);
      assert actions[n] in actions;
      StepAtLoopEnd(dep, Exec(dep, s, actions[..n]), actions[n], i, ResultsOf(actions[..n], i));
    }
  }
}
