/**
 Which calls leave an audit entry and which ones panic, decided from the request and the answers of
 the outside world alone, for every call that any interleaving brings to its end.
 */
module SigningOutcomes {
  import opened Common
  import opened Deployment
  import opened AuditChain
  import opened Pipeline
  import opened PipelineSafety
  import opened SigningService

  function Called(r: Request): Call {
    Call(r, Ready, [])
  }

  /** The received bytes are a transaction that policy lets this caller sign with the platform key. */
  predicate ForVault(dep: Deployment, r: Request) {
    && r.keyId == "platform_admin" && dep.decode(r.serialized).Some?
    && dep.policyObjection(r.identity, dep.decode(r.serialized).value) == None
  }

  predicate NoBlockhash(w: World, tx: Transaction) {
    tx.message.recentBlockhash == DEFAULT_BLOCKHASH && w.cachedBlockhash.None? && w.latestBlockhash.Err?
  }

  predicate Stops(dep: Deployment, w: World) {
    !dep.presignDisabled && w.simulation.Ok? && w.simulation.value.Some?
  }

  /** A key is missing that signing reads: the payer's, or one of several required signers'. */
  predicate NoSignerKey(tx: Transaction) {
    tx.message.accountKeys == [] || |tx.message.accountKeys| < tx.message.numRequiredSignatures
  }

  /** There is no slot 0 to write a signature to. */
  predicate NoSlot(tx: Transaction) {
    tx.signatures == [] && tx.message.numRequiredSignatures == 0
  }

  predicate WillAudit(dep: Deployment, w: World, r: Request) {
    if ForVault(dep, r) then
      var tx := dep.decode(r.serialized).value;
      !NoBlockhash(w, tx) && (Stops(dep, w) || (!NoSignerKey(tx) && !NoSlot(tx) && w.vault.Ok?))
    else dep.decode(r.serialized).Some?
  }

  predicate WillPanic(dep: Deployment, w: World, r: Request) {
    ForVault(dep, r) &&
    var tx := dep.decode(r.serialized).value;
    !NoBlockhash(w, tx) && !Stops(dep, w) && (NoSignerKey(tx) || (NoSlot(tx) && w.vault.Ok?))
  }

  predicate Audits(phase: Phase) {
    phase.Returned? && IsAudited(phase.outcome)
  }

  lemma SendingEnds(dep: Deployment, w: World, c: Call, tx: Transaction)
    ensures Audits(Finish(dep, w, EnterSending(c, tx)).phase)
  {
    var d := Next(dep, w, EnterSending(c, tx));
    var e := Next(dep, w, d);
  }

  lemma AuditingEnds(dep: Deployment, w: World, c: Call)
    requires c.phase.Auditing? && IsAudited(c.phase.outcome)
    ensures Audits(Finish(dep, w, c).phase)
  {
    var d := Next(dep, w, c);
  }

  lemma SigningEnds(dep: Deployment, w: World, c: Call, tx: Transaction)
    ensures var end := Finish(dep, w, EnterSigning(dep, c, tx)).phase;
      && (Audits(end) <==> !NoSignerKey(tx) && !NoSlot(tx) && w.vault.Ok?)
      && (end.Panicked? <==> NoSignerKey(tx) || (NoSlot(tx) && w.vault.Ok?))
  {
    assert NoSignerKey(tx) <==> !SignersReadable(tx.message);
    if !NoSignerKey(tx) {
      var c' := EnterSigning(dep, c, tx);
      var d := Next(dep, w, c');
      if w.vault.Ok? && !NoSlot(tx) {
        var padded := Padded(tx.signatures, tx.message.numRequiredSignatures);
        SendingEnds(dep, w, c', tx.(signatures := padded[0 := w.vault.value]));
      }
    }
  }

  lemma SimulatingEnds(dep: Deployment, w: World, c: Call, tx: Transaction)
    ensures var end := Finish(dep, w, EnterSimulation(dep, c, tx)).phase;
      && (Audits(end) <==> Stops(dep, w) || (!NoSignerKey(tx) && !NoSlot(tx) && w.vault.Ok?))
      && (end.Panicked? <==> !Stops(dep, w) && (NoSignerKey(tx) || (NoSlot(tx) && w.vault.Ok?)))
  {
    if dep.presignDisabled {
      SigningEnds(dep, w, c, tx);
    } else {
      var d := Next(dep, w, Entered(c, Simulating(tx)));
      if Stops(dep, w) {
        AuditingEnds(dep, w, d);
      } else {
        SigningEnds(dep, w, Noted(Entered(c, Simulating(tx)), Simulated(tx, w.simulation)), tx);
      }
    }
  }

  lemma FillingEnds(dep: Deployment, w: World, c: Call, tx: Transaction)
    ensures var end := Finish(dep, w, EnterFilling(dep, c, tx)).phase;
      && (Audits(end) <==> !NoBlockhash(w, tx)
                           && (Stops(dep, w) || (!NoSignerKey(tx) && !NoSlot(tx) && w.vault.Ok?)))
      && (end.Panicked? <==> !NoBlockhash(w, tx) && !Stops(dep, w)
                             && (NoSignerKey(tx) || (NoSlot(tx) && w.vault.Ok?)))
  {
    if tx.message.recentBlockhash == DEFAULT_BLOCKHASH {
      var c' := Entered(c, Filling(tx));
      var d := Next(dep, w, c');
      if !NoBlockhash(w, tx) {
        var hash := if w.cachedBlockhash.Some? then w.cachedBlockhash.value else w.latestBlockhash.value;
        SimulatingEnds(dep, w, c', WithBlockhash(tx, hash));
      }
    } else {
      SimulatingEnds(dep, w, c, tx);
    }
  }

  lemma CallEnds(dep: Deployment, w: World, r: Request)
    ensures var end := Finish(dep, w, Called(r)).phase;
      (Audits(end) <==> WillAudit(dep, w, r)) && (end.Panicked? <==> WillPanic(dep, w, r))
  {
    var d := Next(dep, w, Called(r));
    var decoded := dep.decode(r.serialized);
    if decoded.Some? {
      var passed := Noted(Called(r), PolicyPassed(r.identity, decoded.value));
      if d.phase.Auditing? { AuditingEnds(dep, w, d); }
      else if ForVault(dep, r) { FillingEnds(dep, w, passed, decoded.value); }
      else { SendingEnds(dep, w, passed, decoded.value); }
    }
  }

  // ---- Every ended call has such answers ----------------------------------------------------

  /** The two worlds answer alike in every phase of at most this rank. */
  ghost predicate AgreeUpTo(v: World, w: World, rank: nat) {
    forall phase :: Rank(phase) <= rank ==> Respond(v, phase) == Respond(w, phase)
  }

  /** A call's end depends on no answer to a phase it is past. */
  lemma {:induction false} FinishIgnoresPast(dep: Deployment, v: World, w: World, c: Call)
    requires AgreeUpTo(v, w, Rank(c.phase))
    ensures Finish(dep, v, c) == Finish(dep, w, c)
    decreases Rank(c.phase)
  {
    if Rank(c.phase) != 0 {
      FinishIgnoresPast(dep, v, w, Advance(dep, c, Respond(v, c.phase)));
    }
  }

  /** The answers from a call's current phase on. */
  function Continue(dep: Deployment, c: Call, answers: seq<Answer>): Call
    decreases |answers|
  {
    if answers == [] then c else Continue(dep, Advance(dep, c, answers[0]), answers[1..])
  }

  lemma {:induction false} ContinueAppend(dep: Deployment, c: Call, answers: seq<Answer>, a: Answer)
    ensures Continue(dep, c, answers + [a]) == Advance(dep, Continue(dep, c, answers), a)
    decreases |answers|
  {
    if answers == [] {
      assert ([] + [a])[1..] == [];
    } else {
      assert (answers + [a])[1..] == answers[1..] + [a];
      ContinueAppend(dep, Advance(dep, c, answers[0]), answers[1..], a);
    }
  }

  lemma {:induction false} DriveIsContinue(dep: Deployment, r: Request, answers: seq<Answer>)
    ensures Drive(dep, r, answers) == Continue(dep, Called(r), answers)
  {
    if answers != [] {
      var n := |answers| - 1;
      DriveIsContinue(dep, r, answers[..n]);
      ContinueAppend(dep, Called(r), answers[..n], answers[n]);
      assert answers == answers[..n] + [answers[n]];
    }
  }

  /** The world `w`, changed to give answer `a` in phase `phase`. */
  function Answering(w: World, phase: Phase, a: Answer): World {
    match (phase, a)
    case (Filling(_), Blockhash(hash)) => w.(cachedBlockhash := None, latestBlockhash := hash)
    case (Simulating(_), Simulation(verdict)) => w.(simulation := verdict)
    case (Signing(_), VaultSignature(signature)) => w.(vault := signature)
    case (Sending(_), Sent(signature)) => w.(send := signature)
    case (Auditing(_, _), Appended(ok)) => w.(auditOk := ok)
    case _ => w
  }

  /** Answers that bring a call to its end are those of some world. */
  lemma {:induction false} SomeWorldAnswers(dep: Deployment, c: Call, answers: seq<Answer>) returns (w: World)
    ensures Rank(Continue(dep, c, answers).phase) == 0 ==> Finish(dep, w, c) == Continue(dep, c, answers)
    decreases |answers|
  {
    if answers == [] {
      w := World(None, Ok(ZEROS), Ok(None), Ok(""), Ok(""), true, 0);
    } else {
      var d := Advance(dep, c, answers[0]);
      var v := SomeWorldAnswers(dep, d, answers[1..]);
      w := Answering(v, c.phase, answers[0]);
      if d != c {
        assert Respond(w, c.phase) == answers[0];
        assert Rank(d.phase) < Rank(c.phase);
        FinishIgnoresPast(dep, v, w, d);
      } else {
        w := v;
      }
    }
  }

  lemma EndedCallHasWorld(dep: Deployment, r: Request, answers: seq<Answer>) returns (w: World)
    requires Rank(Drive(dep, r, answers).phase) == 0
    ensures Drive(dep, r, answers) == Finish(dep, w, Called(r))
  {
    DriveIsContinue(dep, r, answers);
    w := SomeWorldAnswers(dep, Called(r), answers);
  }

  // ---- The two exact conditions -------------------------------------------------------------

  /**
   A call makes exactly one append if its bytes decode and it either never gets to the Vault path,
   or has a blockhash and is stopped by the simulation or signed into a slot that exists; in every
   other case, a panic included, it makes none.
   */
  lemma AuditedIff(dep: Deployment, w: World, r: Request)
    ensures AuditCallsIn(Finish(dep, w, Called(r)).trace) == One(WillAudit(dep, w, r))
  {
    CallEnds(dep, w, r);
    var answers := FinishIsDrive(dep, w, r, []);
    AtMostOneAuditEntry(dep, r, answers);
  }

  /** A call panics exactly on the Vault path, when a signer's key or the slot to sign is missing. */
  lemma PanicsIff(dep: Deployment, w: World, r: Request)
    ensures Finish(dep, w, Called(r)).phase.Panicked? <==> WillPanic(dep, w, r)
  {
    CallEnds(dep, w, r);
  }

  /** Some answers make a request panic, in some interleaving, exactly when its own bytes allow it. */
  lemma CanPanicIff(dep: Deployment, r: Request)
    ensures (exists answers :: Drive(dep, r, answers).phase.Panicked?)
       <==> ForVault(dep, r) && var tx := dep.decode(r.serialized).value; NoSignerKey(tx) || NoSlot(tx)
  {
    if answers :| Drive(dep, r, answers).phase.Panicked? {
      var w := EndedCallHasWorld(dep, r, answers);
      PanicsIff(dep, w, r);
    }
    if ForVault(dep, r) {
      var tx := dep.decode(r.serialized).value;
      if NoSignerKey(tx) || NoSlot(tx) {
        var w := World(None, Ok(ZEROS), Ok(None), Ok("sig"), Ok("sig"), true, 0);
        PanicsIff(dep, w, r);
        var answers := FinishIsDrive(dep, w, r, []);
        assert Drive(dep, r, answers).phase.Panicked?;
      }
    }
  }

  /** The promise that every signing decision is audited fails: Vault signs, nothing is sent or recorded. */
  lemma SignedYetUnaudited(dep: Deployment, w: World, r: Request, key: Bytes, hash: Bytes, instructions: seq<Bytes>)
    requires r.keyId == PLATFORM_ADMIN && hash != DEFAULT_BLOCKHASH && w.vault.Ok? && !Stops(dep, w)
    requires var tx := Transaction([], Message(0, [key], hash, instructions));
      dep.decode(r.serialized) == Some(tx) && dep.policyObjection(r.identity, tx) == None
    ensures var c := Finish(dep, w, Called(r));
      && c.phase.Panicked? && AuditCallsIn(c.trace) == 0 && SendsIn(c.trace) == 0
      && exists i :: 0 <= i < |c.trace| && c.trace[i].VaultCalled?
  {
    AuditedIff(dep, w, r);
    PanicsIff(dep, w, r);
    var answers := FinishIsDrive(dep, w, r, []);
    DriveOk(dep, r, answers);
    PanickedSendsNothing(dep, Finish(dep, w, Called(r)));
  }

  lemma PanickedSendsNothing(dep: Deployment, c: Call)
    requires CallOk(dep, c) && c.phase.Panicked?
    ensures SendsIn(c.trace) == 0
    ensures (exists i :: 0 <= i < |c.trace| && c.trace[i].VaultCalled?)
         || exists tx :: BeforeSigning(dep, c.request, tx, c.trace) && NoSignerKey(tx)
  {
    forall i | 0 <= i < |c.trace| ensures !c.trace[i].SendAccepted? {}
    NoSends(c.trace);
  }

  lemma {:induction false} NoSends(trace: seq<Event>)
    requires forall i :: 0 <= i < |trace| ==> !trace[i].SendAccepted?
    ensures SendsIn(trace) == 0
  {
    if trace != [] { NoSends(trace[..|trace| - 1]); }
  }
}
