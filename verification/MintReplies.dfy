/**
 What a mint success reply is worth: it stands for an issuance with the envelope's own window,
 recipient and energy exactly when publishers keep keys and windows consistent.
 */
module MintReplies {
  import opened Common
  import opened Deployment
  import opened Dedup
  import opened Consumer
  import opened ConsumerExclusion
  import opened ConsumerHistory
  import opened SigningService
  import opened MintWorld

  ghost predicate MintSuccess(r: Reply) {
    r.envelope.body.MintEnergy? && r.result.success
  }

  /** The chain has issued, to this envelope's recipient, its energy for its window. */
  ghost predicate PaidOut(issued: seq<Mint>, e: Envelope)
    requires e.body.MintEnergy?
  {
    exists x :: && x in issued && x.window == e.body.window
                && x.recipient == e.body.recipientWallet && x.energyKwh == e.body.energyKwh
  }

  /** Every mint success the living consumer has replied is paid out. */
  ghost predicate Honest(m: Mints) {
    forall r :: r in m.bridge.replies && MintSuccess(r) ==> PaidOut(m.issued, r.envelope)
  }

  /** Two mint envelopes with one window, or with one protected key, ask for the same mint. */
  predicate Agree(e1: Envelope, e2: Envelope)
    requires e1.body.MintEnergy? && e2.body.MintEnergy?
  {
    e1.body.window == e2.body.window || (e1.idempotencyKey == e2.idempotencyKey && e1.idempotencyKey != "") ==>
      && e1.body.window == e2.body.window && e1.body.recipientWallet == e2.body.recipientWallet
      && e1.body.energyKwh == e2.body.energyKwh
  }

  /** The envelopes publishers may send, taken together. */
  ghost predicate Consistent(published: iset<Envelope>) {
    forall e1, e2 :: e1 in published && e2 in published && e1.body.MintEnergy? && e2.body.MintEnergy? ==> Agree(e1, e2)
  }

  ghost predicate OnlyDelivers(actions: seq<MintAction>, published: iset<Envelope>) {
    forall a :: a in actions && a.Bridge? && a.action.Deliver? ==> a.action.envelope in published
  }

  // ---- Everything comes from published envelopes -----------------------------------------------

  ghost predicate BridgeFrom(s: State, published: iset<Envelope>) {
    && (forall i :: 0 <= i < |s.runs| ==> s.runs[i].envelope in published)
    && (forall r :: r in s.replies ==> r.envelope in published)
  }

  ghost predicate Requested(mint: Mint, published: iset<Envelope>) {
    exists e :: e in published && e.body.MintEnergy? && MintOf(e) == mint
  }

  ghost predicate SentFrom(m: Mints, published: iset<Envelope>) {
    forall sig :: sig in m.sent ==> Requested(m.sent[sig], published)
  }

  lemma StepFrom(dep: Deployment, s: State, a: Action, published: iset<Envelope>)
    requires BridgeFrom(s, published) && (a.Deliver? ==> a.envelope in published)
    ensures BridgeFrom(Step(dep, s, a), published)
  {
  }

  /** Every world action moves the consumer by at most one of its own steps. */
  lemma BridgeMovesByStep(dep: Deployment, m: Mints, a: MintAction) returns (step: Action)
    ensures MintStep(dep, m, a).bridge == Step(dep, m.bridge, step)
    ensures step.Deliver? ==> a == Bridge(step)
  {
    step := Tick(0);
    match a
    case Bridge(action) => if !(action.AttemptDone? && IsMinting(m.bridge, action.run)) { step := action; }
    case SendMint(i, signature, accepted) =>
      if MaySend(m, i, signature) && !accepted { step := AttemptDone(i, Err("submission failed")); }
    case FailMint(i, error) => if IsMinting(m.bridge, i) && i !in m.flights { step := AttemptDone(i, Err(error)); }
    case Land(_, _) =>
    case PollMint(i, poll) =>
      if IsMinting(m.bridge, i) && i in m.flights && TruthfulPoll(m, m.flights[i].signature, poll) {
        var outcome := Resolve(m.flights[i].seen + [poll], CONFIRM_ATTEMPTS);
        if outcome.Some? { step := AttemptDone(i, Confirmation(m.flights[i].signature, outcome.value)); }
      }
  }

  lemma SentStaysFrom(dep: Deployment, m: Mints, a: MintAction, published: iset<Envelope>)
    requires SentFrom(m, published) && BridgeFrom(m.bridge, published)
    ensures SentFrom(MintStep(dep, m, a), published)
  {
    if a.SendMint? && MaySend(m, a.run, a.signature) {
      assert m.bridge.runs[a.run].envelope in published;
      assert Requested(MintAt(m.bridge, a.run), published);
    }
  }

  // ---- Consistent publishers get honest replies -------------------------------------------------

  /** What is issued for the window of a landed mint is that very mint. */
  lemma LandedMintIsIssued(m: Mints, signature: Signature, mint: Mint, published: iset<Envelope>)
    requires ProgramOk(m) && LandingsOk(m) && SentFrom(m, published) && Consistent(published)
    requires LandedFor(m, signature, mint)
    ensures mint in m.issued
  {
    var k :| 0 <= k < |m.executed| && m.executed[k] == Landing(signature, mint);
    assert mint.window in m.recorded;
    var x :| x in m.issued && x.window == mint.window;
    var j :| IsFirstLanding(m.executed, j) && m.executed[j].mint == x;
    assert Requested(m.sent[m.executed[j].signature], published) && Requested(m.sent[signature], published);
    var e1 :| e1 in published && e1.body.MintEnergy? && MintOf(e1) == x;
    var e2 :| e2 in published && e2.body.MintEnergy? && MintOf(e2) == mint;
    assert Agree(e1, e2);
  }

  lemma LivingSuccessIsIssued(dep: Deployment, m: Mints, r: Reply, published: iset<Envelope>)
    requires MintsOk(dep, m) && SentFrom(m, published) && BridgeFrom(m.bridge, published) && Consistent(published)
    requires r in m.bridge.replies && MintSuccess(r)
    ensures MintOf(r.envelope) in m.issued
  {
    var e := AnsweringRun(m.bridge, r);
    assert e in published && r.envelope in published;
    assert Agree(e, r.envelope);
    var i :| 0 <= i < |m.bridge.runs| && m.bridge.runs[i].envelope == e && m.bridge.runs[i].phase.Succeeded?;
    LandedMintIsIssued(m, m.bridge.runs[i].phase.signature, MintOf(e), published);
  }

  /** A success answers for its own envelope or for one with the same protected key. */
  lemma AnsweringRun(s: State, r: Reply) returns (e: Envelope)
    requires HistoryOk(s) && r in s.replies && MintSuccess(r)
    ensures e.body.MintEnergy? && (exists i :: 0 <= i < |s.runs| && s.runs[i].envelope == e && s.runs[i].phase.Succeeded?)
    ensures e == r.envelope || (e.idempotencyKey == r.envelope.idempotencyKey && e.idempotencyKey != "")
  {
    assert Truthful(s, r);
    var i :| && Answers(s, i, r.envelope, r.result.signature.value, r.result.slot)
             && (r.result.deduplicated ==> r.envelope.idempotencyKey != "")
             && (!r.result.deduplicated ==> s.runs[i].envelope == r.envelope);
    e := s.runs[i].envelope;
  }

  lemma IssuedGrows(dep: Deployment, m: Mints, a: MintAction)
    ensures forall x :: x in m.issued ==> x in MintStep(dep, m, a).issued
  {
  }

  lemma {:induction false} FromPublished(dep: Deployment, clockMs: nat, actions: seq<MintAction>, published: iset<Envelope>)
    requires OnlyDelivers(actions, published)
    ensures var m := MintExec(dep, Genesis(clockMs), actions); BridgeFrom(m.bridge, published) && SentFrom(m, published)
  {
    if actions != [] {
      var n := |actions| - 1;
      FromPublished(dep, clockMs, actions[..n], published);
      var m, a := MintExec(dep, Genesis(clockMs), actions[..n]), actions[n];
      assert a in actions;
      var step := BridgeMovesByStep(dep, m, a);
      StepFrom(dep, m.bridge, step, published);
      SentStaysFrom(dep, m, a, published);
    }
  }

  /** Mints stay issued whatever happens next. */
  lemma {:induction false} IssuedStays(dep: Deployment, m: Mints, actions: seq<MintAction>, x: Mint)
    requires x in m.issued
    ensures x in MintExec(dep, m, actions).issued
  {
    if actions != [] {
      var n := |actions| - 1;
      IssuedStays(dep, m, actions[..n], x);
      IssuedGrows(dep, MintExec(dep, m, actions[..n]), actions[n]);
    }
  }

  lemma HonestNow(dep: Deployment, clockMs: nat, actions: seq<MintAction>, published: iset<Envelope>)
    requires OnlyDelivers(actions, published) && Consistent(published)
    ensures Honest(MintExec(dep, Genesis(clockMs), actions))
  {
    var m := MintExec(dep, Genesis(clockMs), actions);
    FromPublished(dep, clockMs, actions, published);
    MintExecOk(dep, clockMs, actions);
    forall r | r in m.bridge.replies && MintSuccess(r) ensures PaidOut(m.issued, r.envelope) {
      LivingSuccessIsIssued(dep, m, r, published);
    }
  }

  /**
   If publishers give one window, and one key, to one mint only: every mint success ever replied,
   fresh or replayed, at whatever earlier moment and by whatever consumer since replaced, is for a
   mint the chain has issued with that envelope's own window, recipient and energy.
   */
  lemma MintSuccessIsIssued(dep: Deployment, clockMs: nat, actions: seq<MintAction>, published: iset<Envelope>, n: nat, r: Reply)
    requires OnlyDelivers(actions, published) && Consistent(published) && n <= |actions|
    requires r in MintExec(dep, Genesis(clockMs), actions[..n]).bridge.replies && MintSuccess(r)
    ensures PaidOut(MintExec(dep, Genesis(clockMs), actions).issued, r.envelope)
  {
    HonestNow(dep, clockMs, actions[..n], published);
    var m := MintExec(dep, Genesis(clockMs), actions[..n]);
    assert PaidOut(m.issued, r.envelope);
    var x :| && x in m.issued && x.window == r.envelope.body.window
             && x.recipient == r.envelope.body.recipientWallet && x.energyKwh == r.envelope.body.energyKwh;
    assert actions == actions[..n] + actions[n..];
    MintExecConcat(dep, Genesis(clockMs), actions[..n], actions[n..]);
    IssuedStays(dep, m, actions[n..], x);
  }

  // ---- Inconsistent publishers do not -----------------------------------------------------------

  lemma MintExecAppend(dep: Deployment, m: Mints, actions: seq<MintAction>, a: MintAction)
    ensures MintExec(dep, m, actions + [a]) == MintStep(dep, MintExec(dep, m, actions), a)
  {
    assert (actions + [a])[..|actions|] == actions;
  }

  /** The world is quiet enough for `e` to be admitted and claimed at the last reading. */
  ghost predicate Admissible(dep: Deployment, m: Mints, e: Envelope) {
    && e.body.MintEnergy? && m.bridge.readMs <= m.bridge.clockMs
    && Gates(dep, e.correlationId in m.bridge.cache, e, m.bridge.readMs) == Proceed
    && ClaimAnswer(m.bridge.dedup, DedupKey(e), e.correlationId, m.bridge.readMs).None?
    && |m.bridge.runs| !in m.flights
  }

  /** Delivered, sent, landed and confirmed by the first poll. */
  function MintThrough(m: Mints, e: Envelope, signature: Signature): seq<MintAction> {
    var i := |m.bridge.runs|;
    [Bridge(Deliver(e, m.bridge.readMs))] + [SendMint(i, signature, true)] + [Land(signature, true)]
    + [PollMint(i, Status(false, Some(7)))]
  }

  lemma DeliversOne(m: Mints, e: Envelope, signature: Signature, published: iset<Envelope>)
    requires e in published
    ensures OnlyDelivers(MintThrough(m, e, signature), published)
  {
  }

  lemma ClaimedAndSent(dep: Deployment, m: Mints, e: Envelope, signature: Signature) returns (t: Mints)
    requires Admissible(dep, m, e) && signature !in m.sent
    ensures t == MintStep(dep, MintStep(dep, m, Bridge(Deliver(e, m.bridge.readMs))), SendMint(|m.bridge.runs|, signature, true))
    ensures IsMinting(t.bridge, |m.bridge.runs|) && MintAt(t.bridge, |m.bridge.runs|) == MintOf(e)
    ensures t.bridge == m.bridge.(dedup := ClaimStore(m.bridge.dedup, DedupKey(e), m.bridge.readMs), runs := t.bridge.runs)
    ensures t.bridge.runs == m.bridge.runs + [Run(e, DedupKey(e), m.bridge.readMs, m.bridge.clockMs, Working(0))]
    ensures t == m.(bridge := t.bridge, flights := m.flights[|m.bridge.runs| := Flight(signature, [])],
                    sent := m.sent[signature := MintOf(e)])
  {
    var s := MintStep(dep, m, Bridge(Deliver(e, m.bridge.readMs)));
    assert m.bridge.(readMs := m.bridge.readMs) == m.bridge;
    assert s.bridge.runs == m.bridge.runs + [Run(e, DedupKey(e), m.bridge.readMs, m.bridge.clockMs, Working(0))];
    t := MintStep(dep, s, SendMint(|m.bridge.runs|, signature, true));
  }

  /** The one reply such a mint gets, whatever was issued before. */
  lemma ConfirmedByPoll(m: Mints, i: nat, signature: Signature)
    requires IsMinting(m.bridge, i) && i in m.flights && m.flights[i] == Flight(signature, [])
    requires signature in m.landed && m.landed[signature]
    ensures PollStep(m, i, Status(false, Some(7))) == EndMint(m, i, Ok((signature, 7)))
  {
    assert Resolve([], CONFIRM_ATTEMPTS).None?;
    ResolveAppend([], CONFIRM_ATTEMPTS, Status(false, Some(7)));
  }

  /** `t` is `s` after a run for `e` was admitted and succeeded. */
  ghost predicate Answered(s: State, e: Envelope, signature: Signature, t: State) {
    && t.replies == s.replies + [Reply(e, Success(e.correlationId, signature, 7))]
    && t.cache == s.cache[e.correlationId := s.readMs + CACHE_TTL_MS]
    && t.dedup == FinishStore(ClaimStore(s.dedup, DedupKey(e), s.readMs), DedupKey(e), s.readMs, Ok((signature, 7)))
    && t.readMs == s.readMs && t.clockMs == s.clockMs
  }

  lemma RunAnswers(s: State, u: State, e: Envelope, signature: Signature)
    requires u == s.(dedup := ClaimStore(s.dedup, DedupKey(e), s.readMs), runs := u.runs)
    requires u.runs == s.runs + [Run(e, DedupKey(e), s.readMs, s.clockMs, Working(0))]
    ensures Answered(s, e, signature, AttemptStep(u, |s.runs|, Ok((signature, 7))))
  {
  }

  /** `t` is `m` after one more mint: tokens move only if its window has no record yet. */
  ghost predicate WentThrough(m: Mints, e: Envelope, signature: Signature, t: Mints)
    requires e.body.MintEnergy?
  {
    && t.issued == (if e.body.window in m.recorded then m.issued else m.issued + [MintOf(e)])
    && t.recorded == m.recorded + {e.body.window}
    && Answered(m.bridge, e, signature, t.bridge)
    && t.sent.Keys == m.sent.Keys + {signature} && t.landed.Keys == m.landed.Keys + {signature}
    && t.flights == m.flights
  }

  lemma LandedAndEnded(dep: Deployment, m: Mints, u: Mints, e: Envelope, signature: Signature)
    requires Admissible(dep, m, e) && signature !in m.sent && signature !in m.landed
    requires u.bridge == m.bridge.(dedup := ClaimStore(m.bridge.dedup, DedupKey(e), m.bridge.readMs), runs := u.bridge.runs)
    requires u.bridge.runs == m.bridge.runs + [Run(e, DedupKey(e), m.bridge.readMs, m.bridge.clockMs, Working(0))]
    requires u == m.(bridge := u.bridge, flights := m.flights[|m.bridge.runs| := Flight(signature, [])],
                     sent := m.sent[signature := MintOf(e)])
    ensures WentThrough(m, e, signature, EndMint(LandStep(u, signature, true), |m.bridge.runs|, Ok((signature, 7))))
  {
    var v := LandStep(u, signature, true);
    assert v.bridge == u.bridge && v.flights - {|m.bridge.runs|} == m.flights;
    assert m.recorded + {e.body.window} == v.recorded;
    RunAnswers(m.bridge, u.bridge, e, signature);
  }

  lemma LandedAndPolled(dep: Deployment, u: Mints, i: nat, signature: Signature)
    requires IsMinting(u.bridge, i) && i in u.flights && u.flights[i] == Flight(signature, [])
    requires signature in u.sent && signature !in u.landed
    ensures MintStep(dep, MintStep(dep, u, Land(signature, true)), PollMint(i, Status(false, Some(7))))
         == EndMint(LandStep(u, signature, true), i, Ok((signature, 7)))
  {
    ConfirmedByPoll(LandStep(u, signature, true), i, signature);
  }

  lemma MintGoesThrough(dep: Deployment, m: Mints, e: Envelope, signature: Signature)
    requires Admissible(dep, m, e) && signature !in m.sent && signature !in m.landed
    ensures WentThrough(m, e, signature, MintExec(dep, m, MintThrough(m, e, signature)))
  {
    var i := |m.bridge.runs|;
    ExecOfFour(dep, m, Bridge(Deliver(e, m.bridge.readMs)), SendMint(i, signature, true), Land(signature, true),
               PollMint(i, Status(false, Some(7))));
    var u := ClaimedAndSent(dep, m, e, signature);
    LandedAndPolled(dep, u, i, signature);
    LandedAndEnded(dep, m, u, e, signature);
  }

  lemma ExecOfFour(dep: Deployment, m: Mints, a: MintAction, b: MintAction, c: MintAction, d: MintAction)
    ensures MintExec(dep, m, [a] + [b] + [c] + [d])
         == MintStep(dep, MintStep(dep, MintStep(dep, MintStep(dep, m, a), b), c), d)
  {
    assert [] + [a] == [a];
    MintExecAppend(dep, m, [], a);
    MintExecAppend(dep, m, [a], b);
    MintExecAppend(dep, m, [a] + [b], c);
    MintExecAppend(dep, m, [a] + [b] + [c], d);
  }

  lemma {:induction false} MintExecConcat(dep: Deployment, m: Mints, a: seq<MintAction>, b: seq<MintAction>)
    ensures MintExec(dep, m, a + b) == MintExec(dep, MintExec(dep, m, a), b)
    decreases |b|
  {
    if b == [] {
      assert a + b == a;
    } else {
      var n := |b| - 1;
      assert (a + b)[..|a + b| - 1] == a + b[..n];
      MintExecConcat(dep, m, a, b[..n]);
    }
  }

  /** Two different mints, admissible at the same clock, under different correlation ids. */
  predicate Clash(dep: Deployment, clockMs: nat, e1: Envelope, e2: Envelope) {
    && e1.body.MintEnergy? && e2.body.MintEnergy? && MintOf(e1) != MintOf(e2) && e1.correlationId != e2.correlationId
    && Gates(dep, false, e1, clockMs) == Gates(dep, false, e2, clockMs) == Proceed
  }

  ghost predicate RepliesFor(m: Mints, e: Envelope) {
    exists r :: r in m.bridge.replies && MintSuccess(r) && r.envelope == e
  }

  /** The world after one mint from genesis. */
  lemma FirstMint(dep: Deployment, clockMs: nat, e: Envelope) returns (m: Mints)
    requires e.body.MintEnergy? && Gates(dep, false, e, clockMs) == Proceed
    ensures m == MintExec(dep, Genesis(clockMs), MintThrough(Genesis(clockMs), e, "sig1"))
    ensures m.issued == [MintOf(e)] && m.recorded == {e.body.window} && m.bridge.cache.Keys == {e.correlationId}
    ensures m.bridge.clockMs == m.bridge.readMs == clockMs && m.flights == map[]
    ensures m.sent.Keys == {"sig1"} && m.landed.Keys == {"sig1"}
    ensures m.bridge.dedup == if e.idempotencyKey == "" then map[] else map[DedupKey(e).value := DoneRecord(clockMs, "sig1", 7)]
  {
    var g := Genesis(clockMs);
    assert Admissible(dep, g, e);
    MintGoesThrough(dep, g, e, "sig1");
    m := MintExec(dep, g, MintThrough(g, e, "sig1"));
  }

  /**
   One key, two mints: the second is answered with a replayed success although only the first was
   issued, so a window, recipient or amount is reported that was never minted.
   */
  lemma SharedKeyReplaysUnissued(dep: Deployment, clockMs: nat, e1: Envelope, e2: Envelope) returns (actions: seq<MintAction>)
    requires Clash(dep, clockMs, e1, e2) && e1.idempotencyKey == e2.idempotencyKey != ""
    ensures OnlyDelivers(actions, iset{e1, e2})
    ensures var m := MintExec(dep, Genesis(clockMs), actions); m.issued == [MintOf(e1)] && RepliesFor(m, e2)
  {
    var g := Genesis(clockMs);
    var m := FirstMint(dep, clockMs, e1);
    var again := Bridge(Deliver(e2, clockMs));
    MintExecAppend(dep, g, MintThrough(g, e1, "sig1"), again);
    actions := MintThrough(g, e1, "sig1") + [again];
    DeliversOne(g, e1, "sig1", iset{e1, e2});
    var t := MintStep(dep, m, again);
    assert t.bridge.replies[|m.bridge.replies|] == Reply(e2, TxResult(e2.correlationId, true, Some("sig1"), 7, true, None));
  }

  /**
   Two keys, one window, two mints: the second transaction lands as a no-op and is confirmed, so a
   fresh success is replied for a recipient or amount that the first mint's issuance does not share.
   */
  lemma SharedWindowPaysFirst(dep: Deployment, clockMs: nat, e1: Envelope, e2: Envelope) returns (actions: seq<MintAction>)
    requires Clash(dep, clockMs, e1, e2) && e1.body.window == e2.body.window
    requires e1.idempotencyKey != e2.idempotencyKey || e1.idempotencyKey == ""
    ensures OnlyDelivers(actions, iset{e1, e2})
    ensures var m := MintExec(dep, Genesis(clockMs), actions); m.issued == [MintOf(e1)] && RepliesFor(m, e2)
  {
    var g := Genesis(clockMs);
    var first := MintThrough(g, e1, "sig1");
    var m := FirstMint(dep, clockMs, e1);
    SecondIsAdmissible(dep, clockMs, m, e1, e2);
    MintGoesThrough(dep, m, e2, "sig2");
    var second := MintThrough(m, e2, "sig2");
    MintExecConcat(dep, g, first, second);
    actions := first + second;
    DeliversOne(g, e1, "sig1", iset{e1, e2});
    DeliversOne(m, e2, "sig2", iset{e1, e2});
    FreshReply(m, e2, "sig2", MintExec(dep, g, actions));
  }

  lemma SecondIsAdmissible(dep: Deployment, clockMs: nat, m: Mints, e1: Envelope, e2: Envelope)
    requires Clash(dep, clockMs, e1, e2) && (e1.idempotencyKey != e2.idempotencyKey || e1.idempotencyKey == "")
    requires m.bridge.cache.Keys == {e1.correlationId} && m.bridge.readMs == m.bridge.clockMs == clockMs && m.flights == map[]
    requires m.bridge.dedup == if e1.idempotencyKey == "" then map[] else map[DedupKey(e1).value := DoneRecord(clockMs, "sig1", 7)]
    ensures Admissible(dep, m, e2)
  {
    if DedupKey(e1).Some? && DedupKey(e1) == DedupKey(e2) { KeysNamespaced(e1, e2); }
  }

  lemma FreshReply(m: Mints, e: Envelope, signature: Signature, t: Mints)
    requires e.body.MintEnergy? && WentThrough(m, e, signature, t)
    ensures RepliesFor(t, e)
  {
    assert t.bridge.replies[|m.bridge.replies|] == Reply(e, Success(e.correlationId, signature, 7));
  }

  /**
   The condition is exact. Take any set of envelopes whose mints are all admissible at one clock and
   carry distinct correlation ids: every run that delivers only these has honest mint replies if and
   only if the set is consistent.
   */
  lemma HonestIffConsistent(dep: Deployment, clockMs: nat, published: iset<Envelope>)
    requires forall e :: e in published && e.body.MintEnergy? ==> Gates(dep, false, e, clockMs) == Proceed
    requires forall e1, e2 :: e1 in published && e2 in published && e1.correlationId == e2.correlationId ==> e1 == e2
    ensures Consistent(published)
       <==> forall actions :: OnlyDelivers(actions, published) ==> Honest(MintExec(dep, Genesis(clockMs), actions))
  {
    if Consistent(published) {
      forall actions | OnlyDelivers(actions, published) ensures Honest(MintExec(dep, Genesis(clockMs), actions)) {
        HonestNow(dep, clockMs, actions, published);
      }
    } else {
      var e1, e2 :| e1 in published && e2 in published && e1.body.MintEnergy? && e2.body.MintEnergy? && !Agree(e1, e2);
      var actions;
      if e1.idempotencyKey == e2.idempotencyKey && e1.idempotencyKey != "" {
        actions := SharedKeyReplaysUnissued(dep, clockMs, e1, e2);
      } else {
        actions := SharedWindowPaysFirst(dep, clockMs, e1, e2);
      }
      assert OnlyDelivers(actions, published);
      var m := MintExec(dep, Genesis(clockMs), actions);
      var r :| r in m.bridge.replies && MintSuccess(r) && r.envelope == e2;
      assert !PaidOut(m.issued, e2);
    }
  }
}
