/** At most one run per idempotency key: what the claim record protects, and for how long. */
module ConsumerExclusion {
  import opened Common
  import opened Deployment
  import opened Dedup
  import opened Consumer

  /** How far ahead of its first admission an envelope may be stamped, less the lag of its claims. */
  const MAX_LEAD_MS := 65_000

  /** The two envelopes ask for one effect: the same kind under the same raw idempotency key. */
  ghost predicate SameEffect(e1: Envelope, e2: Envelope) {
    e1.body.SubmitTx? == e2.body.SubmitTx? && e1.idempotencyKey == e2.idempotencyKey
  }

  /** Exactly the empty raw key is unprotected; the two key families are injective and never meet. */
  lemma KeysNamespaced(e1: Envelope, e2: Envelope)
    ensures DedupKey(e1).None? <==> e1.idempotencyKey == ""
    ensures e1.idempotencyKey != "" ==> (DedupKey(e1) == DedupKey(e2) <==> SameEffect(e1, e2))
  {
    if DedupKey(e1).Some? && DedupKey(e1) == DedupKey(e2) {
      var k1, k2 := DedupKey(e1).value, DedupKey(e2).value;
      assert e1.body.SubmitTx? ==> k1[0] == 's';
      assert e1.body.MintEnergy? ==> k1[0] == 'm';
      assert e2.body.SubmitTx? ==> k2[0] == 's';
      assert e2.body.MintEnergy? ==> k2[0] == 'm';
      var n := if e1.body.SubmitTx? then 7 else 5;
      assert k1[n..] == e1.idempotencyKey && k2[n..] == e2.idempotencyKey;
    }
  }

  ghost predicate RunOk(dep: Deployment, s: State, run: Run) {
    && run.admittedMs <= run.claimedMs <= s.clockMs && run.admittedMs <= s.readMs
    && run.key == DedupKey(run.envelope)
    && Gates(dep, false, run.envelope, run.admittedMs) == Proceed
  }

  /** Every run passed the gates at its own reading, and runs are listed in admission order. */
  ghost predicate WellFormed(dep: Deployment, s: State) {
    && s.readMs <= s.clockMs
    && (forall i :: 0 <= i < |s.runs| ==> RunOk(dep, s, s.runs[i]))
    && (forall i, j :: 0 <= i < j < |s.runs| ==> s.runs[i].admittedMs <= s.runs[j].admittedMs)
  }

  ghost predicate HasKey(s: State, i: int, key: string) {
    0 <= i < |s.runs| && s.runs[i].key == Some(key)
  }

  ghost predicate PastClaim(s: State, i: int, key: string) {
    HasKey(s, i, key) && s.runs[i].phase.Working?
  }

  ghost predicate HasSucceeded(s: State, i: int, key: string) {
    HasKey(s, i, key) && s.runs[i].phase.Succeeded?
  }

  /** The run holds the key: it may still produce the effect, or it already has. */
  ghost predicate Holds(s: State, i: int, key: string) {
    PastClaim(s, i, key) || HasSucceeded(s, i, key)
  }

  ghost predicate Protected(s: State, i: int) {
    0 <= i < |s.runs| && s.clockMs < s.runs[i].admittedMs + DEDUP_TTL_MS
  }

  /** The record this run wrote last. */
  ghost function RecordOf(run: Run): DedupRecord
    requires !run.phase.GaveUp?
  {
    DedupRecord(run.admittedMs + 120_000,
                if run.phase.Working? then InFlight else Done(Some(run.phase.signature), run.phase.slot))
  }

  /**
   Until its expiry a holder's own record stands in the store, and a later holder claimed only
   after an earlier one's record lifetime.
   */
  ghost predicate Exclusive(s: State, key: string) {
    && (forall i :: Holds(s, i, key) && Protected(s, i) ==> key in s.dedup && s.dedup[key] == RecordOf(s.runs[i]))
    && (forall i, j :: i < j && Holds(s, i, key) && Holds(s, j, key) ==>
          s.runs[i].admittedMs + DEDUP_TTL_MS <= s.runs[j].claimedMs)
  }

  lemma AdmitWellFormed(dep: Deployment, s: State, e: Envelope)
    requires WellFormed(dep, s)
    ensures WellFormed(dep, Admit(dep, s, e))
  {
  }

  lemma AttemptWellFormed(dep: Deployment, s: State, i: nat, result: Result<(Signature, nat), string>)
    requires WellFormed(dep, s)
    ensures WellFormed(dep, AttemptStep(s, i, result))
  {
  }

  lemma WellFormedStep(dep: Deployment, s: State, a: Action)
    requires WellFormed(dep, s)
    ensures WellFormed(dep, Step(dep, s, a))
  {
    match a
    case Deliver(e, nowMs) =>
      if s.readMs <= nowMs <= s.clockMs { AdmitWellFormed(dep, s.(readMs := nowMs), e); }
    case AttemptDone(i, result) => AttemptWellFormed(dep, s, i, result);
    case _ =>
  }

  lemma {:induction false} WellFormedExec(dep: Deployment, clockMs: nat, actions: seq<Action>)
    ensures WellFormed(dep, Exec(dep, Fresh(clockMs), actions))
  {
    if actions != [] {
      WellFormedExec(dep, clockMs, actions[..|actions| - 1]);
      WellFormedStep(dep, Exec(dep, Fresh(clockMs), actions[..|actions| - 1]), actions[|actions| - 1]);
    }
  }

  /** A claim goes through only once every holder's protection has lapsed, however old its reading. */
  lemma ClaimKeepsExclusive(s: State, t: State, run: Run, key: string)
    requires Exclusive(s, key) && !Live(s.dedup, key, run.admittedMs)
    requires t.runs == s.runs + [run] && run.key == Some(key) && run.admittedMs <= run.claimedMs == s.clockMs == t.clockMs
    requires run.phase.Working? && key in t.dedup && t.dedup[key] == RecordOf(run)
    ensures Exclusive(t, key)
  {
    forall i | Holds(t, i, key) && i < |s.runs|
      ensures s.runs[i].admittedMs + DEDUP_TTL_MS <= s.clockMs
    {
      assert Holds(s, i, key);
    }
  }

  /** Steps that neither touch the key's runs nor change a live record of it. */
  lemma UnrelatedKeepsExclusive(s: State, t: State, key: string)
    requires Exclusive(s, key) && s.clockMs <= t.clockMs && |s.runs| <= |t.runs|
    requires forall i :: 0 <= i < |s.runs| && s.runs[i].key == Some(key) ==> t.runs[i] == s.runs[i]
    requires forall i :: 0 <= i < |t.runs| && t.runs[i].key == Some(key) ==> i < |s.runs| && s.runs[i].key == Some(key)
    requires Live(s.dedup, key, t.clockMs) ==> key in t.dedup && t.dedup[key] == s.dedup[key]
    ensures Exclusive(t, key)
  {
    assert forall i :: Holds(t, i, key) ==> Holds(s, i, key);
  }

  lemma DeliverKeepsExclusive(dep: Deployment, s: State, e: Envelope, nowMs: nat, key: string)
    requires Exclusive(s, key)
    ensures Exclusive(DeliverStep(dep, s, e, nowMs), key)
  {
    var t := DeliverStep(dep, s, e, nowMs);
    if |t.runs| > |s.runs| && DedupKey(e) == Some(key) {
      ClaimKeepsExclusive(s, t, t.runs[|s.runs|], key);
    } else {
      UnrelatedKeepsExclusive(s, t, key);
    }
  }

  /** Finishing is harmless within the protected time, or when no other run holds the key. */
  lemma AttemptKeepsExclusive(s: State, i: nat, result: Result<(Signature, nat), string>, key: string)
    requires Exclusive(s, key) && (forall j :: 0 <= j < |s.runs| ==> s.runs[j].claimedMs <= s.clockMs)
    requires PastClaim(s, i, key) ==> Protected(s, i) || forall j :: Holds(s, j, key) ==> j == i
    ensures Exclusive(AttemptStep(s, i, result), key)
  {
    var t := AttemptStep(s, i, result);
    if i < |s.runs| && s.runs[i].phase.Working? {
      forall j | Holds(t, j, key) ensures Holds(s, j, key) {}
      if !HasKey(s, i, key) {
        assert key in t.dedup <==> key in s.dedup;
        assert key in s.dedup ==> t.dedup[key] == s.dedup[key];
      } else {
        forall j | Holds(s, j, key) && Protected(s, j) && Protected(s, i) ensures j == i {
          assert s.dedup[key] == RecordOf(s.runs[i]);
        }
        forall j | Holds(t, j, key) && Protected(t, j)
          ensures key in t.dedup && t.dedup[key] == RecordOf(t.runs[j])
        {
          assert Holds(s, j, key);
          assert j == i;
        }
      }
    }
  }

  lemma ExclusiveStep(dep: Deployment, s: State, a: Action, key: string)
    requires WellFormed(dep, s) && Exclusive(s, key)
    requires a.AttemptDone? && PastClaim(s, a.run, key) ==>
               Protected(s, a.run) || forall j :: Holds(s, j, key) ==> j == a.run
    ensures Exclusive(Step(dep, s, a), key)
  {
    var t := Step(dep, s, a);
    match a
    case Deliver(e, nowMs) => DeliverKeepsExclusive(dep, s, e, nowMs, key);
    case AttemptDone(i, result) => AttemptKeepsExclusive(s, i, result, key);
    case Reconnect =>
    case _ => UnrelatedKeepsExclusive(s, t, key);
  }

  // ---- One envelope, redelivered any number of times -------------------------------------

  ghost predicate IsFirst(s: State, i: int, key: string) {
    HasKey(s, i, key) && forall j :: 0 <= j < i ==> !HasKey(s, j, key)
  }

  /** No claim under the key came more than `lagMs` after the clock reading it works with. */
  ghost predicate LagWithin(s: State, key: string, lagMs: nat) {
    forall i :: HasKey(s, i, key) ==> s.runs[i].claimedMs <= s.runs[i].admittedMs + lagMs
  }

  /** Only `e` ever claimed `key`; its lead over its first claim and the claims' lag stay in bounds. */
  ghost predicate SoleClaimant(s: State, key: string, e: Envelope, lagMs: nat) {
    && (forall i :: HasKey(s, i, key) ==> s.runs[i].envelope == e)
    && (forall i :: IsFirst(s, i, key) ==> e.createdAtMs + lagMs < s.runs[i].admittedMs + MAX_LEAD_MS)
    && LagWithin(s, key, lagMs)
  }

  lemma {:induction false} FirstClaim(s: State, key: string, i: int) returns (f: int)
    requires HasKey(s, i, key)
    ensures IsFirst(s, f, key) && f <= i
    decreases i
  {
    f := i;
    if !IsFirst(s, i, key) {
      var j :| 0 <= j < i && HasKey(s, j, key);
      f := FirstClaim(s, key, j);
    }
  }

  /** All claims of one envelope fall inside the first claim's protected time. */
  lemma SoleClaimantHoldsOnce(dep: Deployment, s: State, key: string, e: Envelope, lagMs: nat, i: int, j: int)
    requires WellFormed(dep, s) && Exclusive(s, key) && SoleClaimant(s, key, e, lagMs)
    requires Holds(s, i, key) && Holds(s, j, key)
    ensures i == j
  {
    if i < j { SoleClaimantSpread(dep, s, key, e, lagMs, i, j); }
    if j < i { SoleClaimantSpread(dep, s, key, e, lagMs, j, i); }
  }

  lemma SoleClaimantSpread(dep: Deployment, s: State, key: string, e: Envelope, lagMs: nat, i: int, j: int)
    requires WellFormed(dep, s) && SoleClaimant(s, key, e, lagMs)
    requires HasKey(s, i, key) && HasKey(s, j, key) && i < j
    ensures s.runs[j].claimedMs < s.runs[i].admittedMs + DEDUP_TTL_MS
  {
    var f := FirstClaim(s, key, i);
    assert s.runs[f].admittedMs <= s.runs[i].admittedMs;
    assert RunOk(dep, s, s.runs[j]);
    assert !IsStale(e.createdAtMs, s.runs[j].admittedMs);
  }

  lemma SoleClaimantBefore(dep: Deployment, s: State, a: Action, key: string, e: Envelope, lagMs: nat)
    requires SoleClaimant(Step(dep, s, a), key, e, lagMs) && a != Reconnect
    ensures SoleClaimant(s, key, e, lagMs)
  {
    var t := Step(dep, s, a);
    assert |s.runs| <= |t.runs|;
    forall i | 0 <= i < |s.runs| ensures SameAdmission(s.runs[i], t.runs[i]) {}
    forall i | HasKey(s, i, key)
      ensures HasKey(t, i, key) && s.runs[i].envelope == e && s.runs[i].claimedMs <= s.runs[i].admittedMs + lagMs
    {
      assert HasKey(t, i, key);
    }
    forall i | IsFirst(s, i, key) ensures e.createdAtMs + lagMs < s.runs[i].admittedMs + MAX_LEAD_MS {
      assert HasKey(t, i, key);
      assert forall j :: 0 <= j < i ==> (HasKey(t, j, key) <==> HasKey(s, j, key));
      assert IsFirst(t, i, key);
    }
  }

  ghost predicate SameAdmission(a: Run, b: Run) {
    a.envelope == b.envelope && a.key == b.key && a.admittedMs == b.admittedMs && a.claimedMs == b.claimedMs
  }

  lemma {:induction false} SoleClaimantExclusive(dep: Deployment, clockMs: nat, actions: seq<Action>,
                                                 key: string, e: Envelope, lagMs: nat)
    requires SoleClaimant(Exec(dep, Fresh(clockMs), actions), key, e, lagMs)
    ensures Exclusive(Exec(dep, Fresh(clockMs), actions), key)
  {
    if actions != [] {
      var n := |actions| - 1;
      var s, a := Exec(dep, Fresh(clockMs), actions[..n]), actions[n];
      if a != Reconnect {
        SoleClaimantBefore(dep, s, a, key, e, lagMs);
        SoleClaimantExclusive(dep, clockMs, actions[..n], key, e, lagMs);
        WellFormedExec(dep, clockMs, actions[..n]);
        if a.AttemptDone? && PastClaim(s, a.run, key) {
          forall j | Holds(s, j, key) ensures j == a.run {
            SoleClaimantHoldsOnce(dep, s, key, e, lagMs, j, a.run);
          }
        }
        ExclusiveStep(dep, s, a, key);
      }
    }
  }

  lemma SoleClaimantRunsOnce(dep: Deployment, clockMs: nat, actions: seq<Action>, key: string, e: Envelope, lagMs: nat,
                             i: int, j: int)
    requires SoleClaimant(Exec(dep, Fresh(clockMs), actions), key, e, lagMs)
    requires Holds(Exec(dep, Fresh(clockMs), actions), i, key)
    requires Holds(Exec(dep, Fresh(clockMs), actions), j, key)
    ensures i == j
  {
    SoleClaimantExclusive(dep, clockMs, actions, key, e, lagMs);
    WellFormedExec(dep, clockMs, actions);
    SoleClaimantHoldsOnce(dep, Exec(dep, Fresh(clockMs), actions), key, e, lagMs, i, j);
  }

  // ---- Runs by effect kind and raw key ----------------------------------------------------

  ghost predicate RunsFor(s: State, i: int, e: Envelope) {
    0 <= i < |s.runs| && SameEffect(s.runs[i].envelope, e)
  }

  ghost predicate WorksFor(s: State, i: int, e: Envelope) {
    RunsFor(s, i, e) && s.runs[i].phase.Working?
  }

  ghost predicate SucceededFor(s: State, i: int, e: Envelope) {
    RunsFor(s, i, e) && s.runs[i].phase.Succeeded?
  }

  /** The run may still produce the effect `e` asks for, or it already has. */
  ghost predicate HoldsFor(s: State, i: int, e: Envelope) {
    WorksFor(s, i, e) || SucceededFor(s, i, e)
  }

  /**
   In every reachable state a run has a store key if and only if its raw key is not empty, and two
   such runs share the key if and only if they are of one kind and one raw key.
   */
  lemma RunsAreKeyed(dep: Deployment, clockMs: nat, actions: seq<Action>, i: int, j: int)
    requires 0 <= i < |Exec(dep, Fresh(clockMs), actions).runs| && 0 <= j < |Exec(dep, Fresh(clockMs), actions).runs|
    ensures var s := Exec(dep, Fresh(clockMs), actions);
      && (s.runs[i].key.Some? <==> s.runs[i].envelope.idempotencyKey != "")
      && (s.runs[i].key.Some? ==> (s.runs[i].key == s.runs[j].key <==> RunsFor(s, j, s.runs[i].envelope)))
  {
    WellFormedExec(dep, clockMs, actions);
    var s := Exec(dep, Fresh(clockMs), actions);
    assert RunOk(dep, s, s.runs[i]) && RunOk(dep, s, s.runs[j]);
    KeysNamespaced(s.runs[i].envelope, s.runs[j].envelope);
  }

  /** Under the store key of a protected envelope are exactly the runs for its effect. */
  lemma KeyOfEffect(dep: Deployment, clockMs: nat, actions: seq<Action>, e: Envelope) returns (key: string)
    requires e.idempotencyKey != ""
    ensures DedupKey(e) == Some(key)
    ensures forall i :: HasKey(Exec(dep, Fresh(clockMs), actions), i, key) <==> RunsFor(Exec(dep, Fresh(clockMs), actions), i, e)
  {
    KeysNamespaced(e, e);
    key := DedupKey(e).value;
    WellFormedExec(dep, clockMs, actions);
    var s := Exec(dep, Fresh(clockMs), actions);
    forall i ensures HasKey(s, i, key) <==> RunsFor(s, i, e) {
      if 0 <= i < |s.runs| {
        assert RunOk(dep, s, s.runs[i]);
        KeysNamespaced(e, s.runs[i].envelope);
      }
    }
  }

  /** No claim for the effect came more than `lagMs` after the clock reading it works with. */
  ghost predicate LagFor(s: State, e: Envelope, lagMs: nat) {
    forall i :: RunsFor(s, i, e) ==> s.runs[i].claimedMs <= s.runs[i].admittedMs + lagMs
  }

  ghost predicate FirstFor(s: State, i: int, e: Envelope) {
    RunsFor(s, i, e) && forall j :: 0 <= j < i ==> !RunsFor(s, j, e)
  }

  /** Only `e` itself asked for its effect, and its lead over its first admission leaves room for the lag. */
  ghost predicate OnlyRedelivered(s: State, e: Envelope, lagMs: nat) {
    && LagFor(s, e, lagMs)
    && (forall i :: RunsFor(s, i, e) ==> s.runs[i].envelope == e)
    && (forall i :: FirstFor(s, i, e) ==> e.createdAtMs + lagMs < s.runs[i].admittedMs + MAX_LEAD_MS)
  }

  /**
   However often one envelope with an idempotency key is redelivered and however long its runs
   last: at any time at most one run for it is past the claim or has succeeded, in any interleaving
   with the sweep, within one consumer lifetime, if the envelope's lead and the claims' lag add up
   to less than 65 seconds.
   */
  lemma RedeliveryRunsOnce(dep: Deployment, clockMs: nat, actions: seq<Action>, e: Envelope, lagMs: nat, i: int, j: int)
    requires e.idempotencyKey != "" && OnlyRedelivered(Exec(dep, Fresh(clockMs), actions), e, lagMs)
    requires HoldsFor(Exec(dep, Fresh(clockMs), actions), i, e)
    requires HoldsFor(Exec(dep, Fresh(clockMs), actions), j, e)
    ensures i == j
  {
    var s := Exec(dep, Fresh(clockMs), actions);
    var key := KeyOfEffect(dep, clockMs, actions, e);
    assert HasKey(s, i, key) && HasKey(s, j, key);
    forall k | IsFirst(s, k, key) ensures FirstFor(s, k, e) {}
    assert SoleClaimant(s, key, e, lagMs);
    SoleClaimantRunsOnce(dep, clockMs, actions, key, e, lagMs, i, j);
  }

  // ---- Different envelopes sharing a key -------------------------------------------------

  /** Every run under the key ended, or will have to end, before its own claim's expiry. */
  ghost predicate Timely(s: State, key: string) {
    forall i :: HasKey(s, i, key) ==>
      (match s.runs[i].phase
       case Working(_) => Protected(s, i)
       case Succeeded(_, _, ended) => ended < s.runs[i].admittedMs + DEDUP_TTL_MS
       case GaveUp(ended) => ended < s.runs[i].admittedMs + DEDUP_TTL_MS)
  }

  lemma TimelyBefore(dep: Deployment, s: State, a: Action, key: string)
    requires Timely(Step(dep, s, a), key) && a != Reconnect
    ensures Timely(s, key)
    ensures a.AttemptDone? && PastClaim(s, a.run, key) ==> Protected(s, a.run)
  {
    var t := Step(dep, s, a);
    forall i | HasKey(s, i, key) ensures HasKey(t, i, key) {}
    if a.AttemptDone? && PastClaim(s, a.run, key) {
      assert HasKey(t, a.run, key);
    }
  }

  lemma {:induction false} TimelyExclusive(dep: Deployment, clockMs: nat, actions: seq<Action>, key: string)
    requires Timely(Exec(dep, Fresh(clockMs), actions), key)
    ensures Exclusive(Exec(dep, Fresh(clockMs), actions), key)
  {
    if actions != [] {
      var n := |actions| - 1;
      var s, a := Exec(dep, Fresh(clockMs), actions[..n]), actions[n];
      if a != Reconnect {
        TimelyBefore(dep, s, a, key);
        TimelyExclusive(dep, clockMs, actions[..n], key);
        WellFormedExec(dep, clockMs, actions[..n]);
        ExclusiveStep(dep, s, a, key);
      }
    }
  }

  /** Every run for the effect ended, or will have to end, within 120 seconds of its admission. */
  ghost predicate TimelyFor(s: State, e: Envelope) {
    forall i :: RunsFor(s, i, e) ==>
      (match s.runs[i].phase
       case Working(_) => s.clockMs < s.runs[i].admittedMs + 120_000
       case Succeeded(_, _, ended) => ended < s.runs[i].admittedMs + 120_000
       case GaveUp(ended) => ended < s.runs[i].admittedMs + 120_000)
  }

  /** Until its expiry, the store holds for this run's key the record this run wrote last. */
  ghost predicate OwnsRecord(s: State, i: int)
    requires 0 <= i < |s.runs| && !s.runs[i].phase.GaveUp?
  {
    s.runs[i].key.Some? && s.runs[i].key.value in s.dedup && s.dedup[s.runs[i].key.value] == RecordOf(s.runs[i])
  }

  /**
   Different envelopes sharing kind and raw key: if every run ends before its claim expires, then at
   most one is past the claim, the record it will overwrite or remove is its own, a success is on
   record until it expires, and of any two successes the later claimed a full record lifetime after
   the earlier's admission; with no lag that is the distance of their admissions.
   */
  lemma SharedKeySafety(dep: Deployment, clockMs: nat, actions: seq<Action>, e: Envelope, lagMs: nat, i: int, j: int)
    requires e.idempotencyKey != "" && TimelyFor(Exec(dep, Fresh(clockMs), actions), e)
    ensures var s := Exec(dep, Fresh(clockMs), actions);
      && (WorksFor(s, i, e) ==> OwnsRecord(s, i))
      && (SucceededFor(s, i, e) && s.clockMs < s.runs[i].admittedMs + 120_000 ==> OwnsRecord(s, i))
      && (WorksFor(s, i, e) && WorksFor(s, j, e) ==> i == j)
      && (SucceededFor(s, i, e) && SucceededFor(s, j, e) && i < j ==>
            && s.runs[i].admittedMs + 120_000 <= s.runs[j].claimedMs
            && (LagFor(s, e, lagMs) ==> s.runs[i].admittedMs + 120_000 <= s.runs[j].admittedMs + lagMs))
  {
    var s := Exec(dep, Fresh(clockMs), actions);
    var key := KeyOfEffect(dep, clockMs, actions, e);
    assert forall k :: HasKey(s, k, key) ==> RunsFor(s, k, e);
    assert Timely(s, key);
    TimelyExclusive(dep, clockMs, actions, key);
    WellFormedExec(dep, clockMs, actions);
    assert RunsFor(s, i, e) ==> HasKey(s, i, key) && RunOk(dep, s, s.runs[i]);
    assert RunsFor(s, j, e) ==> HasKey(s, j, key) && RunOk(dep, s, s.runs[j]);
    assert HoldsFor(s, i, e) ==> Holds(s, i, key);
    assert HoldsFor(s, j, e) ==> Holds(s, j, key);
  }

  // ---- The two conditions are needed ------------------------------------------------------

  /** Deliver, let the clock run a record lifetime, sweep the key, deliver with reading `t2`. */
  function Overrun(e1: Envelope, t1: nat, e2: Envelope, t2: nat, sweptMs: nat, key: string): seq<Action>
    requires t1 <= sweptMs
  {
    [Deliver(e1, t1), Tick(sweptMs - t1), Sweep(sweptMs, {key}), Deliver(e2, t2)]
  }

  lemma ExecFour(dep: Deployment, s: State, a: Action, b: Action, c: Action, d: Action)
    ensures Exec(dep, s, [a, b, c, d]) == Step(dep, Step(dep, Step(dep, Step(dep, s, a), b), c), d)
  {
    assert [a, b, c, d][..3] == [a, b, c] && [a, b, c][..2] == [a, b] && [a, b][..1] == [a] && [a][..0] == [];
    assert Exec(dep, s, [a]) == Step(dep, s, a);
    assert Exec(dep, s, [a, b]) == Step(dep, Step(dep, s, a), b);
    assert Exec(dep, s, [a, b, c]) == Step(dep, Step(dep, Step(dep, s, a), b), c);
  }

  lemma FirstDelivery(dep: Deployment, e: Envelope, key: string, nowMs: nat)
    requires DedupKey(e) == Some(key) && Gates(dep, false, e, nowMs) == Proceed
    ensures var s := DeliverStep(dep, Fresh(nowMs), e, nowMs);
      && s.clockMs == s.readMs == nowMs && s.cache == map[] && s.runs == [Run(e, Some(key), nowMs, nowMs, Working(0))]
      && s.dedup == map[key := DedupRecord(nowMs + DEDUP_TTL_MS, InFlight)]
  {
  }

  lemma OverrunOfKey(dep: Deployment, e1: Envelope, e2: Envelope, key: string, t1: nat, t2: nat, atMs: nat)
    requires DedupKey(e1) == DedupKey(e2) == Some(key)
    requires Gates(dep, false, e1, t1) == Proceed && Gates(dep, false, e2, t2) == Proceed
    requires t1 <= t2 <= atMs && t1 + DEDUP_TTL_MS <= atMs
    ensures var s := Exec(dep, Fresh(t1), Overrun(e1, t1, e2, t2, atMs, key));
      s.runs == [Run(e1, Some(key), t1, t1, Working(0)), Run(e2, Some(key), t2, atMs, Working(0))]
  {
    ExecFour(dep, Fresh(t1), Deliver(e1, t1), Tick(atMs - t1), Sweep(atMs, {key}), Deliver(e2, t2));
    FirstDelivery(dep, e1, key, t1);
    var s := Step(dep, Step(dep, DeliverStep(dep, Fresh(t1), e1, t1), Tick(atMs - t1)), Sweep(atMs, {key}));
    assert s.clockMs == atMs && s.readMs == t1 && key !in s.dedup && s.cache == map[];
    assert DeliverStep(dep, s, e2, t2).runs == s.runs + [Run(e2, Some(key), t2, atMs, Working(0))];
  }

  /**
   Two admissible envelopes for one effect. The second claims at `atMs`, 120 seconds or more after
   the first, whatever the age of its reading `t2`: while the first run is still working, both are
   past the claim.
   */
  lemma OverrunAdmitsSecond(dep: Deployment, e1: Envelope, e2: Envelope, t1: nat, t2: nat, atMs: nat)
    returns (actions: seq<Action>)
    requires SameEffect(e1, e2) && e1.idempotencyKey != ""
    requires Gates(dep, false, e1, t1) == Proceed && Gates(dep, false, e2, t2) == Proceed
    requires t1 <= t2 <= atMs && t1 + 120_000 <= atMs
    ensures var s := Exec(dep, Fresh(t1), actions);
      && |s.runs| == 2 && s.runs[0].envelope == e1 && s.runs[1].envelope == e2
      && WorksFor(s, 0, e1) && WorksFor(s, 1, e1) && s.runs[1].admittedMs == t2 && s.runs[1].claimedMs == atMs
  {
    KeysNamespaced(e1, e2);
    var key := DedupKey(e1).value;
    actions := Overrun(e1, t1, e2, t2, atMs, key);
    OverrunOfKey(dep, e1, e2, key, t1, t2, atMs);
  }

  /** The oldest reading that a claim at the first record's expiry can carry with this lag. */
  function LateReading(firstMs: nat, lagMs: nat): nat {
    firstMs + SaturatingSub(DEDUP_TTL_MS, lagMs)
  }

  /** After a first delivery at `firstMs` only `e` asks for its effect, and no claim lags more than `lagMs`. */
  ghost predicate OnlyRedelivers(dep: Deployment, e: Envelope, firstMs: nat, lagMs: nat, actions: seq<Action>) {
    var s := Exec(dep, Fresh(firstMs), [Deliver(e, firstMs)] + actions);
    LagFor(s, e, lagMs) && forall i :: RunsFor(s, i, e) ==> s.runs[i].envelope == e
  }

  /** Two runs hold the effect of `e` after a first delivery at `firstMs` and these actions. */
  ghost predicate HeldTwice(dep: Deployment, e: Envelope, firstMs: nat, actions: seq<Action>) {
    var s := Exec(dep, Fresh(firstMs), [Deliver(e, firstMs)] + actions);
    exists i, j :: i < j && HoldsFor(s, i, e) && HoldsFor(s, j, e)
  }

  /**
   The bound is exact. Take an envelope with an idempotency key, admitted at `firstMs`, that at the
   latest critical reading is either stale or still admissible: redelivery with claims lagging at
   most `lagMs` never gives it two holders, in any interleaving with the sweep, if and only if its
   lead over `firstMs` and the lag add up to less than 65 seconds.
   */
  lemma LeadBoundIsExact(dep: Deployment, e: Envelope, firstMs: nat, lagMs: nat)
    requires e.idempotencyKey != "" && Gates(dep, false, e, firstMs) == Proceed
    requires var late := LateReading(firstMs, lagMs);
      IsStale(e.createdAtMs, late) || Gates(dep, false, e, late) == Proceed
    ensures e.createdAtMs + lagMs < firstMs + 65_000
       <==> forall actions :: OnlyRedelivers(dep, e, firstMs, lagMs, actions) ==> !HeldTwice(dep, e, firstMs, actions)
  {
    if e.createdAtMs + lagMs < firstMs + MAX_LEAD_MS {
      forall actions | OnlyRedelivers(dep, e, firstMs, lagMs, actions) ensures !HeldTwice(dep, e, firstMs, actions) {
        NeverHeldTwice(dep, e, firstMs, lagMs, actions);
      }
    } else {
      var actions := LateClaimIsSecond(dep, e, firstMs, lagMs);
    }
  }

  lemma NeverHeldTwice(dep: Deployment, e: Envelope, firstMs: nat, lagMs: nat, actions: seq<Action>)
    requires e.idempotencyKey != "" && OnlyRedelivers(dep, e, firstMs, lagMs, actions)
    requires e.createdAtMs + lagMs < firstMs + MAX_LEAD_MS
    ensures !HeldTwice(dep, e, firstMs, actions)
  {
    var all := [Deliver(e, firstMs)] + actions;
    var s := Exec(dep, Fresh(firstMs), all);
    ReadingsStart(dep, firstMs, all);
    assert OnlyRedelivered(s, e, lagMs);
    forall i, j | HoldsFor(s, i, e) && HoldsFor(s, j, e) ensures i == j {
      RedeliveryRunsOnce(dep, firstMs, all, e, lagMs, i, j);
    }
  }

  /** Past the bound, a late claim of the swept key makes a second holder. */
  lemma LateClaimIsSecond(dep: Deployment, e: Envelope, firstMs: nat, lagMs: nat) returns (actions: seq<Action>)
    requires e.idempotencyKey != "" && Gates(dep, false, e, firstMs) == Proceed
    requires var late := LateReading(firstMs, lagMs);
      IsStale(e.createdAtMs, late) || Gates(dep, false, e, late) == Proceed
    requires firstMs + MAX_LEAD_MS <= e.createdAtMs + lagMs
    ensures OnlyRedelivers(dep, e, firstMs, lagMs, actions) && HeldTwice(dep, e, firstMs, actions)
  {
    var late := LateReading(firstMs, lagMs);
    assert !IsStale(e.createdAtMs, late) by { assert !IsStale(e.createdAtMs, firstMs); }
    KeysNamespaced(e, e);
    var key := DedupKey(e).value;
    var all := Overrun(e, firstMs, e, late, firstMs + DEDUP_TTL_MS, key);
    actions := all[1..];
    assert [Deliver(e, firstMs)] + actions == all;
    OverrunOfKey(dep, e, e, key, firstMs, late, firstMs + DEDUP_TTL_MS);
    var s := Exec(dep, Fresh(firstMs), all);
    assert HoldsFor(s, 0, e) && HoldsFor(s, 1, e);
  }

  lemma {:induction false} ReadingsStart(dep: Deployment, clockMs: nat, actions: seq<Action>)
    ensures forall i :: 0 <= i < |Exec(dep, Fresh(clockMs), actions).runs| ==>
      clockMs <= Exec(dep, Fresh(clockMs), actions).runs[i].admittedMs
    ensures clockMs <= Exec(dep, Fresh(clockMs), actions).readMs && clockMs <= Exec(dep, Fresh(clockMs), actions).clockMs
  {
    if actions != [] {
      ReadingsStart(dep, clockMs, actions[..|actions| - 1]);
    }
  }
}
