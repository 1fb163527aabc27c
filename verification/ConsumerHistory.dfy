/**
 What the consumer's maps and replies say about its own history: when the sweep shows, replays
 repeat a real earlier success, and the correlation cache is exactly the successes and cancels.
 */
module ConsumerHistory {
  import opened Common
  import opened EnvelopeAuthentication
  import opened Deployment
  import opened Dedup
  import opened Consumer
  import opened ConsumerExclusion
  import opened ConsumerAdmission

  // ---- When the sweep is invisible --------------------------------------------------------

  function WithoutSweeps(actions: seq<Action>): seq<Action> {
    if actions == [] then []
    else
      var before := WithoutSweeps(actions[..|actions| - 1]);
      var last := actions[|actions| - 1];
      if last.Sweep? then before else before + [last]
  }

  /** Equal in everything but records that are already expired. */
  ghost predicate SameToClients(swept: State, full: State) {
    swept.(dedup := full.dedup) == full && SameUpToExpired(swept.dedup, full.dedup, swept.clockMs)
  }

  /** The key whose record this action overwrites or releases when run `a.run` ends. */
  ghost function Settled(s: State, a: Action): set<string> {
    if a.AttemptDone? && a.run < |s.runs| && s.runs[a.run].phase.Working? && s.runs[a.run].key.Some?
       && (a.result.Ok? || !WillRetry(s.runs[a.run]))
    then {s.runs[a.run].key.value} else {}
  }

  /** The records that sweeps took out and that nothing has replaced or released since. */
  ghost function Dropped(dep: Deployment, clockMs: nat, actions: seq<Action>): Store {
    if actions == [] then map[]
    else
      var n := |actions| - 1;
      DroppedAfter(dep, Exec(dep, Fresh(clockMs), actions[..n]), Dropped(dep, clockMs, actions[..n]), actions[n])
  }

  ghost function DroppedAfter(dep: Deployment, s: State, d: Store, a: Action): Store {
    var t := Step(dep, s, a);
    match a
    case Reconnect => map[]
    case Sweep(_, _) => d + (map k | k in s.dedup && k !in t.dedup :: s.dedup[k])
    case _ => d - t.dedup.Keys - Settled(s, a)
  }

  /** An admissible delivery whose record a sweep has dropped although it was live at the reading. */
  ghost predicate OvertakenIn(dep: Deployment, s: State, d: Store, a: Action) {
    && a.Deliver? && s.readMs <= a.nowMs <= s.clockMs
    && Gates(dep, a.envelope.correlationId in s.cache, a.envelope, a.nowMs) == Proceed
    && DedupKey(a.envelope).Some? && Live(d, DedupKey(a.envelope).value, a.nowMs)
  }

  ghost predicate Overtaken(dep: Deployment, clockMs: nat, before: seq<Action>, a: Action) {
    OvertakenIn(dep, Exec(dep, Fresh(clockMs), before), Dropped(dep, clockMs, before), a)
  }

  ghost predicate OvertakenAt(dep: Deployment, clockMs: nat, actions: seq<Action>, n: nat)
    requires n < |actions|
  {
    Overtaken(dep, clockMs, actions[..n], actions[n])
  }

  /** `full` is `swept` with the dropped records, all of them expired, still in place. */
  ghost predicate Merged(swept: Store, d: Store, full: Store, clockMs: nat) {
    d.Keys !! swept.Keys && full == swept + d && forall k :: k in d ==> d[k].expiryMs <= clockMs
  }

  /** The never-swept state `u` is `s` with the dropped records still in place. */
  ghost predicate Restores(s: State, d: Store, u: State) {
    s.(dedup := u.dedup) == u && Merged(s.dedup, d, u.dedup, s.clockMs)
  }

  lemma ClaimMerged(swept: Store, d: Store, full: Store, clockMs: nat, key: Option<string>, id: string, nowMs: nat)
    requires Merged(swept, d, full, clockMs) && (key.Some? ==> !Live(d, key.value, nowMs))
    ensures ClaimAnswer(swept, key, id, nowMs) == ClaimAnswer(full, key, id, nowMs)
    ensures var claimed := ClaimStore(swept, key, nowMs);
      Merged(claimed, d - claimed.Keys, ClaimStore(full, key, nowMs), clockMs)
  {
    if key.None? || Live(swept, key.value, nowMs) { assert d - swept.Keys == d; }
  }

  lemma AdmitRestores(dep: Deployment, s: State, d: Store, u: State, e: Envelope)
    requires Restores(s, d, u) && s.readMs <= s.clockMs && !OvertakenIn(dep, s, d, Deliver(e, s.readMs))
    ensures Restores(Admit(dep, s, e), d - Admit(dep, s, e).dedup.Keys, Admit(dep, u, e))
  {
    assert d - s.dedup.Keys == d;
    if Gates(dep, e.correlationId in s.cache, e, s.readMs) == Proceed {
      ClaimMerged(s.dedup, d, u.dedup, s.clockMs, DedupKey(e), e.correlationId, s.readMs);
    }
  }

  lemma FinishMerged(swept: Store, d: Store, full: Store, clockMs: nat, key: string, admittedMs: nat,
                     result: Result<(Signature, nat), string>)
    requires Merged(swept, d, full, clockMs)
    ensures var finished := FinishStore(swept, Some(key), admittedMs, result);
      Merged(finished, d - finished.Keys - {key}, FinishStore(full, Some(key), admittedMs, result), clockMs)
  {
    var finished := FinishStore(swept, Some(key), admittedMs, result);
    assert d - finished.Keys - {key} == d - {key};
  }

  /** Nothing but the store itself depends on the store when an attempt returns. */
  lemma AttemptOnStore(s: State, i: nat, result: Result<(Signature, nat), string>, store: Store)
    ensures AttemptStep(s.(dedup := store), i, result)
         == AttemptStep(s, i, result).(dedup := if Settled(s, AttemptDone(i, result)) == {} then store
                                                else FinishStore(store, s.runs[i].key, s.runs[i].admittedMs, result))
  {
  }

  lemma AttemptRestores(dep: Deployment, s: State, d: Store, u: State, i: nat, result: Result<(Signature, nat), string>)
    requires Restores(s, d, u)
    ensures var a := AttemptDone(i, result);
      Restores(AttemptStep(s, i, result), DroppedAfter(dep, s, d, a), AttemptStep(u, i, result))
  {
    assert s.(dedup := s.dedup) == s && AttemptStep(s, i, result).clockMs == s.clockMs;
    AttemptOnStore(s, i, result, s.dedup);
    AttemptOnStore(s, i, result, u.dedup);
    if Settled(s, AttemptDone(i, result)) == {} {
      assert d - s.dedup.Keys - {} == d;
    } else {
      FinishMerged(s.dedup, d, u.dedup, s.clockMs, s.runs[i].key.value, s.runs[i].admittedMs, result);
    }
  }

  lemma SweepRestores(dep: Deployment, s: State, d: Store, u: State, a: Action)
    requires Restores(s, d, u) && a.Sweep?
    ensures Restores(Step(dep, s, a), DroppedAfter(dep, s, d, a), u)
  {
    var t, f := Step(dep, s, a), DroppedAfter(dep, s, d, a);
    assert t.dedup + f == u.dedup;
  }

  lemma DeliverRestores(dep: Deployment, s: State, d: Store, u: State, e: Envelope, nowMs: nat)
    requires Restores(s, d, u) && !OvertakenIn(dep, s, d, Deliver(e, nowMs))
    ensures Restores(DeliverStep(dep, s, e, nowMs), DroppedAfter(dep, s, d, Deliver(e, nowMs)), DeliverStep(dep, u, e, nowMs))
  {
    assert forall m: Store, k: set<string> :: m - k - {} == m - k;
    if s.readMs <= nowMs <= s.clockMs {
      AdmitRestores(dep, s.(readMs := nowMs), d, u.(readMs := nowMs), e);
    } else {
      assert d - s.dedup.Keys == d;
    }
  }

  lemma StepRestores(dep: Deployment, s: State, d: Store, u: State, a: Action)
    requires Restores(s, d, u) && !OvertakenIn(dep, s, d, a) && !a.Sweep?
    ensures Restores(Step(dep, s, a), DroppedAfter(dep, s, d, a), Step(dep, u, a))
  {
    assert d - s.dedup.Keys - {} == d;
    match a
    case Deliver(e, nowMs) => DeliverRestores(dep, s, d, u, e, nowMs);
    case AttemptDone(i, result) => AttemptRestores(dep, s, d, u, i, result);
    case _ =>
  }

  lemma {:induction false} NotOvertakenRestores(dep: Deployment, clockMs: nat, actions: seq<Action>, n: nat)
    requires n <= |actions| && forall m: nat :: m < n ==> !OvertakenAt(dep, clockMs, actions, m)
    ensures Restores(Exec(dep, Fresh(clockMs), actions[..n]), Dropped(dep, clockMs, actions[..n]),
                     Exec(dep, Fresh(clockMs), WithoutSweeps(actions[..n])))
  {
    if n > 0 {
      NotOvertakenRestores(dep, clockMs, actions, n - 1);
      var before, a := actions[..n - 1], actions[n - 1];
      assert actions[..n][..n - 1] == before;
      assert !OvertakenAt(dep, clockMs, actions, n - 1);
      var s, u := Exec(dep, Fresh(clockMs), before), Exec(dep, Fresh(clockMs), WithoutSweeps(before));
      var d := Dropped(dep, clockMs, before);
      if a.Sweep? {
        SweepRestores(dep, s, d, u, a);
      } else {
        StepRestores(dep, s, d, u, a);
        ExecAppend(dep, Fresh(clockMs), WithoutSweeps(before), a);
      }
    }
  }

  /** An overtaken delivery runs where the never-swept consumer replays. */
  lemma OvertakenDiffers(dep: Deployment, s: State, d: Store, u: State, a: Action)
    requires Restores(s, d, u) && OvertakenIn(dep, s, d, a)
    ensures |Step(dep, s, a).runs| == |s.runs| + 1 && |Step(dep, u, a).runs| == |s.runs|
  {
    var key := DedupKey(a.envelope).value;
    assert key !in s.dedup && u.dedup[key] == d[key];
  }

  ghost predicate SweptRunAgrees(dep: Deployment, clockMs: nat, actions: seq<Action>) {
    SameToClients(Exec(dep, Fresh(clockMs), actions), Exec(dep, Fresh(clockMs), WithoutSweeps(actions)))
  }

  lemma OvertakenDisagrees(dep: Deployment, clockMs: nat, before: seq<Action>, a: Action)
    requires Restores(Exec(dep, Fresh(clockMs), before), Dropped(dep, clockMs, before),
                      Exec(dep, Fresh(clockMs), WithoutSweeps(before)))
    requires Overtaken(dep, clockMs, before, a)
    ensures !SweptRunAgrees(dep, clockMs, before + [a])
  {
    assert (before + [a])[..|before|] == before;
    ExecAppend(dep, Fresh(clockMs), before, a);
    ExecAppend(dep, Fresh(clockMs), WithoutSweeps(before), a);
    OvertakenDiffers(dep, Exec(dep, Fresh(clockMs), before), Dropped(dep, clockMs, before),
                     Exec(dep, Fresh(clockMs), WithoutSweeps(before)), a);
  }

  ghost predicate AgreesAt(dep: Deployment, clockMs: nat, actions: seq<Action>, n: nat)
    requires n <= |actions|
  {
    SweptRunAgrees(dep, clockMs, actions[..n])
  }

  lemma AgreementStep(dep: Deployment, clockMs: nat, actions: seq<Action>, n: nat)
    requires n < |actions| && (forall m: nat :: m < n ==> !OvertakenAt(dep, clockMs, actions, m))
    requires AgreesAt(dep, clockMs, actions, n + 1)
    ensures !OvertakenAt(dep, clockMs, actions, n)
  {
    NotOvertakenRestores(dep, clockMs, actions, n);
    assert actions[..n + 1] == actions[..n] + [actions[n]];
    if Overtaken(dep, clockMs, actions[..n], actions[n]) { OvertakenDisagrees(dep, clockMs, actions[..n], actions[n]); }
  }

  lemma {:induction false} AgreementIsNotOvertaken(dep: Deployment, clockMs: nat, actions: seq<Action>, n: nat)
    requires n < |actions| && forall m: nat :: m <= |actions| ==> AgreesAt(dep, clockMs, actions, m)
    ensures !OvertakenAt(dep, clockMs, actions, n)
  {
    forall m: nat | m < n ensures !OvertakenAt(dep, clockMs, actions, m) {
      AgreementIsNotOvertaken(dep, clockMs, actions, m);
    }
    AgreementStep(dep, clockMs, actions, n);
  }

  /**
   Exactly when the sweep shows. Remove every sweep from an interleaving: at every point clock,
   runs, replies, cancels and cache are the same and the stores differ only in expired records, if
   and only if no admissible delivery comes after a sweep dropped a record that was still live at
   the delivery's own clock reading.
   */
  lemma SweepShowsIff(dep: Deployment, clockMs: nat, actions: seq<Action>)
    ensures (forall n: nat :: n <= |actions| ==> AgreesAt(dep, clockMs, actions, n))
       <==> (forall n: nat :: n < |actions| ==> !OvertakenAt(dep, clockMs, actions, n))
  {
    if forall n: nat :: n < |actions| ==> !OvertakenAt(dep, clockMs, actions, n) {
      forall n: nat | n <= |actions| ensures AgreesAt(dep, clockMs, actions, n) {
        NotOvertakenRestores(dep, clockMs, actions, n);
      }
    }
    if forall n: nat :: n <= |actions| ==> AgreesAt(dep, clockMs, actions, n) {
      forall n: nat | n < |actions| ensures !OvertakenAt(dep, clockMs, actions, n) {
        AgreementIsNotOvertaken(dep, clockMs, actions, n);
      }
    }
  }

  ghost predicate SweptBy(actions: seq<Action>, i: nat, expiryMs: nat) {
    i < |actions| && actions[i].Sweep? && expiryMs <= actions[i].asOfMs
  }

  lemma {:induction false} DroppedWasSwept(dep: Deployment, clockMs: nat, actions: seq<Action>, key: string) returns (i: nat)
    requires key in Dropped(dep, clockMs, actions)
    ensures SweptBy(actions, i, Dropped(dep, clockMs, actions)[key].expiryMs)
  {
    var n := |actions| - 1;
    if key in Dropped(dep, clockMs, actions[..n])
       && Dropped(dep, clockMs, actions[..n])[key] == Dropped(dep, clockMs, actions)[key] {
      i := DroppedWasSwept(dep, clockMs, actions[..n], key);
    } else {
      i := n;
    }
  }

  /**
   So the sweep is invisible in every interleaving in which no delivery works with a clock reading
   older than an earlier sweep's.
   */
  lemma SweepIsInvisible(dep: Deployment, clockMs: nat, actions: seq<Action>)
    requires forall i, j :: 0 <= i < j < |actions| && actions[i].Sweep? && actions[j].Deliver? ==>
               actions[i].asOfMs <= actions[j].nowMs
    ensures SweptRunAgrees(dep, clockMs, actions)
  {
    forall n: nat | n < |actions| ensures !OvertakenAt(dep, clockMs, actions, n) {
      if Overtaken(dep, clockMs, actions[..n], actions[n]) {
        var i := DroppedWasSwept(dep, clockMs, actions[..n], DedupKey(actions[n].envelope).value);
        assert false;
      }
    }
    SweepShowsIff(dep, clockMs, actions);
    assert AgreesAt(dep, clockMs, actions, |actions|);
    assert actions[..|actions|] == actions;
  }

  // ---- Replays ---------------------------------------------------------------------------

  /** Run `i` succeeded for the same effect and idempotency key, with this result. */
  ghost predicate Answers(s: State, i: int, e: Envelope, signature: Signature, slot: nat) {
    && 0 <= i < |s.runs| && s.runs[i].phase.Succeeded?
    && s.runs[i].phase.signature == signature && s.runs[i].phase.slot == slot
    && s.runs[i].envelope.idempotencyKey == e.idempotencyKey
    && s.runs[i].envelope.body.SubmitTx? == e.body.SubmitTx?
  }

  /** A success reply names its own correlation id and a successful run's signature and slot. */
  ghost predicate Truthful(s: State, reply: Reply) {
    && reply.result.correlationId == reply.envelope.correlationId
    && (reply.result.success ==>
          && reply.result.signature.Some?
          && exists i ::
               && Answers(s, i, reply.envelope, reply.result.signature.value, reply.result.slot)
               && (reply.result.deduplicated ==> reply.envelope.idempotencyKey != "")
               && (!reply.result.deduplicated ==> s.runs[i].envelope == reply.envelope))
  }

  /** Every record was written by a run under exactly its key; a done one by a success. */
  ghost predicate RecordBacked(s: State, key: string)
    requires key in s.dedup
  {
    match s.dedup[key].state
    case InFlight => exists i :: HasKey(s, i, key)
    case Done(signature, slot) =>
      && signature.Some?
      && exists i :: HasSucceeded(s, i, key)
           && s.runs[i].phase.signature == signature.value && s.runs[i].phase.slot == slot
  }

  ghost predicate HistoryOk(s: State) {
    && (forall key :: key in s.dedup ==> RecordBacked(s, key))
    && (forall r :: r in s.replies ==> Truthful(s, r))
  }

  /** Runs are never forgotten, and a success keeps its result, until the next reconnect. */
  lemma RunsPersist(dep: Deployment, s: State, a: Action, i: int)
    requires a != Reconnect && 0 <= i < |s.runs|
    ensures var t := Step(dep, s, a);
      && i < |t.runs| && t.runs[i].envelope == s.runs[i].envelope && t.runs[i].key == s.runs[i].key
      && t.runs[i].admittedMs == s.runs[i].admittedMs
      && (!s.runs[i].phase.Working? ==> t.runs[i].phase == s.runs[i].phase)
  {
  }

  lemma RecordStaysBacked(dep: Deployment, s: State, a: Action, key: string)
    requires a != Reconnect && key in s.dedup && RecordBacked(s, key)
    requires var t := Step(dep, s, a); key in t.dedup && t.dedup[key] == s.dedup[key]
    ensures RecordBacked(Step(dep, s, a), key)
  {
    var t := Step(dep, s, a);
    match s.dedup[key].state
    case InFlight =>
      var i :| HasKey(s, i, key);
      RunsPersist(dep, s, a, i);
      assert HasKey(t, i, key);
    case Done(signature, slot) =>
      var i :| HasSucceeded(s, i, key) && s.runs[i].phase.signature == signature.value && s.runs[i].phase.slot == slot;
      RunsPersist(dep, s, a, i);
      assert HasSucceeded(t, i, key);
  }

  lemma ReplyStaysTruthful(dep: Deployment, s: State, a: Action, reply: Reply)
    requires a != Reconnect && Truthful(s, reply)
    ensures Truthful(Step(dep, s, a), reply)
  {
    if reply.result.success {
      var i :| Answers(s, i, reply.envelope, reply.result.signature.value, reply.result.slot)
               && (reply.result.deduplicated ==> reply.envelope.idempotencyKey != "")
               && (!reply.result.deduplicated ==> s.runs[i].envelope == reply.envelope);
      RunsPersist(dep, s, a, i);
      assert Answers(Step(dep, s, a), i, reply.envelope, reply.result.signature.value, reply.result.slot);
    }
  }

  /** A replay is backed by a success that the run which wrote the record had before this delivery. */
  lemma ReplayTruthful(dep: Deployment, s: State, e: Envelope, nowMs: nat)
    requires WellFormed(dep, s) && HistoryOk(s)
    requires ClaimAnswer(s.dedup, DedupKey(e), e.correlationId, nowMs).Some?
    ensures Truthful(s, Reply(e, ClaimAnswer(s.dedup, DedupKey(e), e.correlationId, nowMs).value))
  {
    var key := DedupKey(e).value;
    assert RecordBacked(s, key);
    if s.dedup[key].state.Done? {
      var Done(signature, slot) := s.dedup[key].state;
      var i :| HasSucceeded(s, i, key) && s.runs[i].phase.signature == signature.value && s.runs[i].phase.slot == slot;
      KeysNamespaced(s.runs[i].envelope, e);
      assert Answers(s, i, e, signature.value, slot);
    }
  }

  lemma DeliverKeepsHistory(dep: Deployment, s: State, e: Envelope, nowMs: nat)
    requires WellFormed(dep, s) && HistoryOk(s)
    ensures HistoryOk(DeliverStep(dep, s, e, nowMs))
  {
    var a, t := Deliver(e, nowMs), DeliverStep(dep, s, e, nowMs);
    forall key | key in t.dedup ensures RecordBacked(t, key) {
      if key in s.dedup && t.dedup[key] == s.dedup[key] {
        RecordStaysBacked(dep, s, a, key);
      } else {
        assert HasKey(t, |s.runs|, key);
      }
    }
    forall r | r in t.replies ensures Truthful(t, r) {
      if r in s.replies {
        ReplyStaysTruthful(dep, s, a, r);
      } else if ClaimAnswer(s.dedup, DedupKey(e), e.correlationId, nowMs).Some? {
        ReplayTruthful(dep, s, e, nowMs);
        assert t.runs == s.runs;
        if r.result.success {
          var i :| Answers(s, i, r.envelope, r.result.signature.value, r.result.slot);
          assert Answers(t, i, r.envelope, r.result.signature.value, r.result.slot);
        }
      }
    }
  }

  lemma AttemptKeepsHistory(dep: Deployment, s: State, i: nat, result: Result<(Signature, nat), string>)
    requires WellFormed(dep, s) && HistoryOk(s)
    ensures HistoryOk(AttemptStep(s, i, result))
  {
    var a, t := AttemptDone(i, result), AttemptStep(s, i, result);
    if i < |s.runs| && s.runs[i].phase.Working? {
      forall key | key in t.dedup ensures RecordBacked(t, key) {
        if key in s.dedup && t.dedup[key] == s.dedup[key] {
          RecordStaysBacked(dep, s, a, key);
        } else {
          assert HasSucceeded(t, i, key);
        }
      }
      forall r | r in t.replies ensures Truthful(t, r) {
        if r in s.replies {
          ReplyStaysTruthful(dep, s, a, r);
        } else if result.Ok? {
          assert Answers(t, i, r.envelope, result.value.0, result.value.1);
        }
      }
    }
  }

  lemma HistoryStep(dep: Deployment, s: State, a: Action)
    requires WellFormed(dep, s) && HistoryOk(s)
    ensures HistoryOk(Step(dep, s, a))
  {
    match a
    case Deliver(e, nowMs) => DeliverKeepsHistory(dep, s, e, nowMs);
    case AttemptDone(i, result) => AttemptKeepsHistory(dep, s, i, result);
    case Reconnect =>
    case _ =>
      var t := Step(dep, s, a);
      forall key | key in t.dedup ensures RecordBacked(t, key) { RecordStaysBacked(dep, s, a, key); }
      forall r | r in t.replies ensures Truthful(t, r) { ReplyStaysTruthful(dep, s, a, r); }
  }

  lemma {:induction false} HistoryExec(dep: Deployment, clockMs: nat, actions: seq<Action>)
    ensures HistoryOk(Exec(dep, Fresh(clockMs), actions))
  {
    if actions != [] {
      var n := |actions| - 1;
      HistoryExec(dep, clockMs, actions[..n]);
      WellFormedExec(dep, clockMs, actions[..n]);
      HistoryStep(dep, Exec(dep, Fresh(clockMs), actions[..n]), actions[n]);
    }
  }

  /**
   In every reachable state each deduplicated success carries the signature and slot of a
   successful run with the same raw key and the same effect kind, and its own correlation id.
   */
  lemma ReplaysRepeatASuccess(dep: Deployment, clockMs: nat, actions: seq<Action>, r: Reply)
    requires r in Exec(dep, Fresh(clockMs), actions).replies && r.result.success && r.result.deduplicated
    ensures r.result.correlationId == r.envelope.correlationId && r.result.signature.Some?
    ensures exists i :: Answers(Exec(dep, Fresh(clockMs), actions), i, r.envelope, r.result.signature.value, r.result.slot)
  {
    HistoryExec(dep, clockMs, actions);
    assert Truthful(Exec(dep, Fresh(clockMs), actions), r);
  }

  // ---- The correlation cache -------------------------------------------------------------

  ghost function SucceededIds(s: State): set<string> {
    set i | 0 <= i < |s.runs| && s.runs[i].phase.Succeeded? :: s.runs[i].envelope.correlationId
  }

  ghost function CancelMarks(s: State): set<string> {
    set id | id in s.cancelled :: CancelMark(id)
  }

  ghost predicate CacheExact(s: State) {
    s.cache.Keys == SucceededIds(s) + s.cancelled + CancelMarks(s)
  }

  /** Only a success adds to the succeeded ids, and it adds its own. */
  lemma AttemptSucceededIds(s: State, i: nat, result: Result<(Signature, nat), string>)
    requires i < |s.runs| && s.runs[i].phase.Working?
    ensures SucceededIds(AttemptStep(s, i, result))
         == if result.Ok? then SucceededIds(s) + {s.runs[i].envelope.correlationId} else SucceededIds(s)
  {
    var t := AttemptStep(s, i, result);
    assert forall j :: 0 <= j < |s.runs| && j != i ==> t.runs[j] == s.runs[j];
    assert t.runs[i].envelope == s.runs[i].envelope;
    forall x | x in SucceededIds(s) ensures x in SucceededIds(t) {
      var j :| 0 <= j < |s.runs| && s.runs[j].phase.Succeeded? && s.runs[j].envelope.correlationId == x;
      assert t.runs[j] == s.runs[j];
    }
    if result.Ok? {
      assert t.runs[i].phase.Succeeded?;
    }
  }

  lemma DeliverCacheExact(dep: Deployment, s: State, e: Envelope, nowMs: nat)
    requires CacheExact(s)
    ensures CacheExact(DeliverStep(dep, s, e, nowMs))
  {
    var t := DeliverStep(dep, s, e, nowMs);
    assert forall i :: 0 <= i < |s.runs| ==> t.runs[i] == s.runs[i];
    assert SucceededIds(t) == SucceededIds(s);
  }

  lemma CancelCacheExact(dep: Deployment, s: State, c: CancelEnvelope)
    requires CacheExact(s)
    ensures CacheExact(CancelStep(dep, s, c))
  {
    var t := CancelStep(dep, s, c);
    if t != s {
      assert CancelMarks(t) == CancelMarks(s) + {CancelMark(c.correlationId)};
      assert SucceededIds(t) == SucceededIds(s);
    }
  }

  lemma CacheExactStep(dep: Deployment, s: State, a: Action)
    requires CacheExact(s)
    ensures CacheExact(Step(dep, s, a))
  {
    match a
    case Deliver(e, nowMs) => DeliverCacheExact(dep, s, e, nowMs);
    case Cancel(c) => CancelCacheExact(dep, s, c);
    case AttemptDone(i, result) =>
      if i < |s.runs| && s.runs[i].phase.Working? {
        AttemptSucceededIds(s, i, result);
      }
    case Tick(_) =>
    case Sweep(_, _) =>
    case Reconnect =>
  }

  /**
   The live correlation map holds exactly the ids of successful runs, the cancelled ids and their
   cancel marks: nothing ever expires from it within a lifetime.
   */
  lemma {:induction false} CacheIsExact(dep: Deployment, clockMs: nat, actions: seq<Action>)
    ensures CacheExact(Exec(dep, Fresh(clockMs), actions))
  {
    if actions != [] {
      CacheIsExact(dep, clockMs, actions[..|actions| - 1]);
      CacheExactStep(dep, Exec(dep, Fresh(clockMs), actions[..|actions| - 1]), actions[|actions| - 1]);
    }
  }

  /**
   From a state whose map holds a correlation id (a cancel or a success recorded it), no later
   step of any task drops the id, and no run admitted later has it: none claims, signs or sends.
   */
  lemma {:induction false} BlockedIdNeverRuns(dep: Deployment, s: State, actions: seq<Action>, id: string)
    requires id in s.cache && Reconnect !in actions
    ensures var t := Exec(dep, s, actions);
      && id in t.cache && |s.runs| <= |t.runs|
      && forall i :: |s.runs| <= i < |t.runs| ==> t.runs[i].envelope.correlationId != id
  {
    if actions != [] {
      BlockedIdNeverRuns(dep, s, actions[..|actions| - 1], id);
      assert actions[|actions| - 1] in actions;
    }
  }

  /**
   The map has one namespace for correlation ids and cancel marks. In every reachable state a cancel
   leaves its id blocked if and only if the id is blocked already, or the cancel is authorised and
   no run succeeded under, and no cancel named, the id spelt like the cancel's own mark.
   */
  lemma CancelBlocksIff(dep: Deployment, requireSigned: bool, caDer: Option<Bytes>,
                        clockMs: nat, actions: seq<Action>, c: CancelEnvelope)
    requires Configured(dep, requireSigned, caDer)
    ensures var s := Exec(dep, Fresh(clockMs), actions);
      c.correlationId in Step(dep, s, Cancel(c)).cache
      <==> || c.correlationId in s.cache
           || (&& CancelAuthorised(dep, requireSigned && caDer.Some?, caDer, c, s.clockMs)
               && "cancel:" + c.correlationId !in SucceededIds(s) + s.cancelled)
  {
    var s := Exec(dep, Fresh(clockMs), actions);
    CacheIsExact(dep, clockMs, actions);
    var mark := CancelMark(c.correlationId);
    EnforcedIff(requireSigned, caDer);
    CancelGatesIff(dep, mark in s.cache, c, s.clockMs);
    if mark in CancelMarks(s) {
      var id :| id in s.cancelled && CancelMark(id) == mark;
      assert id == mark[7..] && c.correlationId == mark[7..];
    }
  }

  /** A success under the id "cancel:x" makes a later cancel of x vanish, and x runs. */
  lemma AliasedCancelIsDropped(dep: Deployment, clockMs: nat, alias: Envelope, c: CancelEnvelope, e: Envelope)
    requires alias.correlationId == "cancel:" + c.correlationId && e.correlationId == c.correlationId
    requires alias.idempotencyKey == "" || !SameEffect(alias, e)
    requires Gates(dep, false, alias, clockMs) == Gates(dep, false, e, clockMs) == Proceed
    requires CancelAuthorised(dep, dep.authPolicy.requireSigned, dep.authPolicy.caDer, c, clockMs)
    ensures var actions := [Deliver(alias, clockMs), AttemptDone(0, Ok(("sig", 7))), Cancel(c), Deliver(e, clockMs)];
            var s := Exec(dep, Fresh(clockMs), actions);
      s.cancelled == {} && |s.runs| == 2 && s.runs[1] == Run(e, DedupKey(e), clockMs, clockMs, Working(0))
  {
    var a, b := Deliver(alias, clockMs), AttemptDone(0, Ok(("sig", 7)));
    ExecFour(dep, Fresh(clockMs), a, b, Cancel(c), Deliver(e, clockMs));
    KeysNamespaced(alias, e);
    var s := SucceededAlias(dep, clockMs, alias);
    assert Step(dep, s, Cancel(c)) == s;
    assert |alias.correlationId| != |e.correlationId|;
    if DedupKey(e).Some? { assert DedupKey(e).value !in s.dedup; }
  }

  lemma SucceededAlias(dep: Deployment, clockMs: nat, alias: Envelope) returns (s: State)
    requires Gates(dep, false, alias, clockMs) == Proceed
    ensures s == Step(dep, Step(dep, Fresh(clockMs), Deliver(alias, clockMs)), AttemptDone(0, Ok(("sig", 7))))
    ensures s.clockMs == s.readMs == clockMs && s.cache == map[alias.correlationId := clockMs + CACHE_TTL_MS]
    ensures |s.runs| == 1 && s.cancelled == {} && forall k :: k in s.dedup ==> DedupKey(alias) == Some(k)
  {
    s := Step(dep, Step(dep, Fresh(clockMs), Deliver(alias, clockMs)), AttemptDone(0, Ok(("sig", 7))));
  }
}
