/**
 The signing service as written: `sign_and_submit` edits its transaction in place, and the
 confirmation poll is a bounded loop. Both are proved against the pipeline machine and against a
 statement of what a poll may conclude.
 */
module SigningService {
  import opened Common
  import opened Deployment
  import opened AuditChain
  import opened Pipeline
  import opened PipelineSafety
  import AuditStores

  /** What the outside world answers during one uninterrupted call. */
  datatype World = World(
    cachedBlockhash: Option<Bytes>,
    latestBlockhash: Result<Bytes, string>,
    simulation: Result<Option<string>, string>,
    vault: Result<Signature, string>,
    send: Result<Signature, string>,
    auditOk: bool,
    nowMs: U64)

  datatype Ending = Result(outcome: Outcome) | Panic

  function Respond(w: World, phase: Phase): Answer {
    match phase
    case Filling(_) => Blockhash(if w.cachedBlockhash.Some? then Ok(w.cachedBlockhash.value) else w.latestBlockhash)
    case Simulating(_) => Simulation(w.simulation)
    case Signing(_) => VaultSignature(w.vault)
    case Sending(_) => Sent(w.send)
    case Auditing(_, _) => Appended(w.auditOk)
    case _ => Begin
  }

  function Rank(phase: Phase): nat {
    match phase
    case Ready => 6
    case Filling(_) => 5
    case Simulating(_) => 4
    case Signing(_) => 3
    case Sending(_) => 2
    case Auditing(_, _) => 1
    case _ => 0
  }

  /** The call driven to its end by the world's answers. */
  function Finish(dep: Deployment, w: World, c: Call): (d: Call)
    ensures (d.phase.Returned? || d.phase.Panicked?) && d.request == c.request
    decreases Rank(c.phase)
  {
    if Rank(c.phase) == 0 then c else Finish(dep, w, Advance(dep, c, Respond(w, c.phase)))
  }

  /** One machine step; the end it is heading for does not move. */
  ghost function Next(dep: Deployment, w: World, c: Call): (d: Call)
    ensures Finish(dep, w, d) == Finish(dep, w, c)
  {
    if Rank(c.phase) == 0 then c else Advance(dep, c, Respond(w, c.phase))
  }

  /** The driven call is one of the machine's answer sequences. */
  lemma {:induction false} FinishIsDrive(dep: Deployment, w: World, r: Request, sofar: seq<Answer>) returns (answers: seq<Answer>)
    ensures Finish(dep, w, Drive(dep, r, sofar)) == Drive(dep, r, answers)
    decreases Rank(Drive(dep, r, sofar).phase)
  {
    var c := Drive(dep, r, sofar);
    answers := sofar;
    if Rank(c.phase) != 0 {
      var next := Respond(w, c.phase);
      assert (sofar + [next])[..|sofar|] == sofar;
      answers := FinishIsDrive(dep, w, r, sofar + [next]);
    }
  }

  /** What the call has been given agrees with what the world answers. */
  ghost predicate FromWorld(g: Given, w: World) {
    && (g.vault.Some? ==> w.vault == Ok(g.vault.value))
    && (g.hash.Some? ==> (if w.cachedBlockhash.Some? then Ok(w.cachedBlockhash.value) else w.latestBlockhash) == Ok(g.hash.value))
  }

  lemma {:induction false} FinishGiven(dep: Deployment, w: World, c: Call, g: Given) returns (end: Given)
    requires GivenOk(dep, c, g) && FromWorld(g, w)
    ensures GivenOk(dep, Finish(dep, w, c), end) && FromWorld(end, w)
    decreases Rank(c.phase)
  {
    end := g;
    if Rank(c.phase) != 0 {
      var a := Respond(w, c.phase);
      AdvanceGiven(dep, c, a, g);
      end := FinishGiven(dep, w, Advance(dep, c, a), Learn(g, c.phase, a));
    }
  }

  /** A transaction sent under the platform key carries the world's signature and blockhash. */
  ghost predicate CarriesAnswers(dep: Deployment, r: Request, w: World, tx: Transaction) {
    && w.vault.Ok? && tx.signatures != [] && tx.signatures[0] == w.vault.value
    && dep.decode(r.serialized).Some?
    && var received := dep.decode(r.serialized).value;
       received.message.recentBlockhash == ZEROS ==>
         tx.message.recentBlockhash == if w.cachedBlockhash.Some? then w.cachedBlockhash.value
                                       else if w.latestBlockhash.Ok? then w.latestBlockhash.value else ZEROS
  }

  /** What the trace of a finished call says about its transaction and its audit entry. */
  lemma FinishedTrace(dep: Deployment, w: World, r: Request)
    ensures var c := Finish(dep, w, Call(r, Ready, []));
      && (r.keyId == "platform_admin" ==>
            forall j :: 0 <= j < |c.trace| && c.trace[j].SendCalled? ==> CarriesAnswers(dep, r, w, c.trace[j].tx))
      && (c.trace != [] && c.trace[|c.trace| - 1].AuditCalled? ==>
            c.phase.Returned? && EntryFits(c.trace[|c.trace| - 1].entry, c.phase.outcome))
  {
    var end := FinishGiven(dep, w, Call(r, Ready, []), Given(None, None));
    var answers := FinishIsDrive(dep, w, r, []);
    AuditCallEndsTrace(dep, r, answers);
  }

  lemma AuditCallEndsTrace(dep: Deployment, r: Request, answers: seq<Answer>)
    ensures var c := Drive(dep, r, answers);
      c.trace != [] && c.trace[|c.trace| - 1].AuditCalled? && Rank(c.phase) == 0 ==>
        c.phase.Returned? && EntryFits(c.trace[|c.trace| - 1].entry, c.phase.outcome)
  {
    DriveOk(dep, r, answers);
    var c := Drive(dep, r, answers);
    if c.phase.Returned? && UnauditedOk(dep, r, c.phase.outcome, c.trace) {
      UnauditedSendsNothing(dep, r, c.phase.outcome, c.trace);
    }
    if c.phase.Panicked? {
      if tx :| VaultCalledFor(dep, r, tx, c.trace) { VaultSendsNothing(dep, r, tx, c.trace); }
    }
  }

  /** From its audit append a call returns, with that one more call and that one more entry. */
  lemma AuditEnds(dep: Deployment, w: World, c: Call, log: seq<AuditStores.Logged>)
    requires c.phase.Auditing?
    ensures var end := Finish(dep, w, c);
      && end.phase == Returned(c.phase.outcome) && end.request == c.request
      && end.trace == c.trace + [AuditCalled(c.phase.entry, w.auditOk)]
      && LogAfter(dep, log, c.request, w, end.trace)
         == if w.auditOk then AuditStores.AppendLog(dep.auditEncoding, log, EntryFor(c.request, c.phase.entry, w.nowMs)) else log
  {
    var d := Next(dep, w, c);
  }

  class ChainBridgeService {
    const dep: Deployment
    const audit: AuditStores.InMemoryAuditStore
    ghost var calls: seq<Event>

    ghost predicate Valid()
      reads this, audit
    {
      audit.enc == dep.auditEncoding && audit.Valid()
    }

    constructor (dep: Deployment)
      ensures Valid() && fresh(audit) && this.dep == dep && audit.log == [] && calls == []
    {
      this.dep := dep;
      audit := new AuditStores.InMemoryAuditStore(dep.auditEncoding);
      calls := [];
    }

    /** Best effort: a refused append is logged elsewhere and the effect stands. */
    method RecordAudit(r: Request, entry: AuditOutcome, w: World)
      requires Valid()
      modifies this, audit
      ensures Valid() && calls == old(calls) + [AuditCalled(entry, w.auditOk)]
      ensures audit.log == if w.auditOk
                           then AuditStores.AppendLog(dep.auditEncoding, old(audit.log), EntryFor(r, entry, w.nowMs))
                           else old(audit.log)
    {
      calls := calls + [AuditCalled(entry, w.auditOk)];
      if w.auditOk {
        var _ := audit.Append(NewEntry(r.correlationId, r.identity, "sign_and_submit", entry, w.nowMs));
      }
    }

    /** The object stands where the machine's call `c` stands, counted from `calls0` and `log0`. */
    ghost predicate At(c: Call, w: World, calls0: seq<Event>, log0: seq<AuditStores.Logged>)
      reads this, audit
    {
      Valid() && calls == calls0 + c.trace && audit.log == LogAfter(dep, log0, c.request, w, c.trace)
    }

    /** As `At`, before anything is appended. */
    ghost predicate Before(c: Call, calls0: seq<Event>, log0: seq<AuditStores.Logged>)
      reads this, audit
    {
      && Valid() && calls == calls0 + c.trace && audit.log == log0
      && (c.trace != [] ==> !c.trace[|c.trace| - 1].AuditCalled?)
    }

    /** One more call on the outside world. */
    method Note(event: Event, ghost c: Call, ghost calls0: seq<Event>, ghost log0: seq<AuditStores.Logged>)
      requires Before(c, calls0, log0) && !event.AuditCalled?
      modifies this`calls
      ensures Before(Noted(c, event), calls0, log0)
    {
      calls := calls + [event];
    }

    /** Append the entry of an audited ending and return its outcome. */
    method End(r: Request, entry: AuditOutcome, outcome: Outcome, w: World,
               ghost c: Call, ghost calls0: seq<Event>, ghost log0: seq<AuditStores.Logged>) returns (ending: Ending)
      requires c.request == r && c.phase == Auditing(entry, outcome) && Before(c, calls0, log0)
      modifies this, audit
      ensures At(Finish(dep, w, c), w, calls0, log0) && ending == EndingOf(Finish(dep, w, c))
    {
      AuditEnds(dep, w, c, log0);
      RecordAudit(r, entry, w);
      return Result(outcome);
    }

    /** The tail of the pipeline: send, then audit the result. */
    method SendAndAudit(r: Request, transaction: Transaction, w: World,
                        ghost c: Call, ghost calls0: seq<Event>, ghost log0: seq<AuditStores.Logged>) returns (ending: Ending)
      requires c.request == r && Before(c, calls0, log0)
      modifies this, audit
      ensures var end := Finish(dep, w, EnterSending(c, transaction));
        At(end, w, calls0, log0) && ending == EndingOf(end)
    {
      Note(SendCalled(transaction), c, calls0, log0);
      ghost var d := EnterSending(c, transaction);
      ghost var e := Next(dep, w, d);
      if w.send.Err? {
        ending := End(r, Rejected("submit", w.send.error), Err(SubmissionFailed(w.send.error)), w, e, calls0, log0);
        return;
      }
      Note(SendAccepted(w.send.value), d, calls0, log0);
      ending := End(r, Submitted(w.send.value, 0), Ok(w.send.value), w, e, calls0, log0);
    }

    /** Attach Vault's answer at slot 0, then the tail. */
    method Attach(r: Request, filled: Transaction, w: World,
                  ghost c: Call, ghost calls0: seq<Event>, ghost log0: seq<AuditStores.Logged>) returns (ending: Ending)
      requires c.request == r && c.phase == Signing(filled) && Before(c, calls0, log0)
      modifies this, audit
      ensures At(Finish(dep, w, c), w, calls0, log0) && ending == EndingOf(Finish(dep, w, c))
    {
      ghost var d := Next(dep, w, c);
      if w.vault.Err? {
        return Result(Err(VaultSigningFailed(w.vault.error)));
      }
      var transaction := filled;
      transaction := transaction.(signatures := Padded(transaction.signatures, transaction.message.numRequiredSignatures));
      if transaction.signatures == [] {
        return Panic;
      }
      transaction := transaction.(signatures := transaction.signatures[0 := w.vault.value]);
      ending := SendAndAudit(r, transaction, w, c, calls0, log0);
    }

    /** Sign the filled transaction with Vault. */
    method SignAndAttach(r: Request, filled: Transaction, w: World,
                         ghost c: Call, ghost calls0: seq<Event>, ghost log0: seq<AuditStores.Logged>) returns (ending: Ending)
      requires c.request == r && Before(c, calls0, log0)
      modifies this, audit
      ensures var end := Finish(dep, w, EnterSigning(dep, c, filled));
        At(end, w, calls0, log0) && ending == EndingOf(end)
    {
      if !SignersReadable(filled.message) {
        return Panic;
      }
      Note(VaultCalled(dep.transitKeyName, dep.messageData(filled.message)), c, calls0, log0);
      ending := Attach(r, filled, w, EnterSigning(dep, c, filled), calls0, log0);
    }

    /** Simulate unless that is switched off, then sign. */
    method SimulateAndSign(r: Request, filled: Transaction, w: World,
                           ghost c: Call, ghost calls0: seq<Event>, ghost log0: seq<AuditStores.Logged>) returns (ending: Ending)
      requires c.request == r && Before(c, calls0, log0)
      modifies this, audit
      ensures var end := Finish(dep, w, EnterSimulation(dep, c, filled));
        At(end, w, calls0, log0) && ending == EndingOf(end)
    {
      ghost var simulated := c;
      if !dep.presignDisabled {
        ghost var d := Next(dep, w, Entered(c, Simulating(filled)));
        simulated := Noted(Entered(c, Simulating(filled)), Simulated(filled, w.simulation));
        Note(Simulated(filled, w.simulation), c, calls0, log0);
        if w.simulation.Ok? && w.simulation.value.Some? {
          var reason := w.simulation.value.value;
          ending := End(r, Rejected("simulation", reason), Err(SimulationRejected(reason)), w, d, calls0, log0);
          return;
        }
      }
      ending := SignAndAttach(r, filled, w, simulated, calls0, log0);
    }

    /** The platform key's part: fill a default blockhash, then simulate and sign. */
    method SignAsPlatform(r: Request, received: Transaction, w: World,
                          ghost c: Call, ghost calls0: seq<Event>, ghost log0: seq<AuditStores.Logged>) returns (ending: Ending)
      requires c.request == r && Before(c, calls0, log0)
      modifies this, audit
      ensures var end := Finish(dep, w, EnterFilling(dep, c, received));
        At(end, w, calls0, log0) && ending == EndingOf(end)
    {
      var transaction := received;
      if transaction.message.recentBlockhash == DEFAULT_BLOCKHASH {
        var bh := if w.cachedBlockhash.Some? then Ok(w.cachedBlockhash.value) else w.latestBlockhash;
        ghost var d := Next(dep, w, Entered(c, Filling(received)));
        if bh.Err? {
          return Result(Err(BlockhashRefreshFailed(bh.error)));
        }
        transaction := transaction.(message := transaction.message.(recentBlockhash := bh.value));
        ending := SimulateAndSign(r, transaction, w, Entered(c, Filling(received)), calls0, log0);
        return;
      }
      ending := SimulateAndSign(r, transaction, w, c, calls0, log0);
    }

    /**
     Ends, calls and appends exactly as the pipeline machine does under the same answers, and the
     audit log stays a hash chain.
     */
    method SignAndSubmit(r: Request, w: World) returns (ending: Ending)
      requires Valid()
      modifies this, audit
      ensures var c := Finish(dep, w, Call(r, Ready, []));
        && ending == EndingOf(c)
        && calls == old(calls) + c.trace
        && Valid() && audit.log == LogAfter(dep, old(audit.log), r, w, c.trace)
      ensures r.keyId == "platform_admin" ==>
        forall j :: |old(calls)| <= j < |calls| && calls[j].SendCalled? ==> CarriesAnswers(dep, r, w, calls[j].tx)
      ensures audit.log == old(audit.log)
           || (&& ending.Result? && |audit.log| == |old(audit.log)| + 1 && audit.log[..|old(audit.log)|] == old(audit.log)
               && var entry := audit.log[|old(audit.log)|].entry;
                  && entry.correlationId == r.correlationId && entry.identity == r.identity
                  && entry.action == "sign_and_submit" && entry.createdAtMs == w.nowMs && entry.prevHash.None?
                  && EntryFits(entry.outcome, ending.outcome))
    {
      FinishedTrace(dep, w, r);
      ghost var c := Call(r, Ready, []);
      ghost var d := Next(dep, w, c);
      var decoded := dep.decode(r.serialized);
      if decoded.None? {
        return Result(Err(InvalidFormat));
      }
      var objection := dep.policyObjection(r.identity, decoded.value);
      if objection.Some? {
        ending := End(r, Rejected("policy", objection.value), Err(PolicyRejected(objection.value)), w, d,
                      old(calls), old(audit.log));
        return;
      }
      Note(PolicyPassed(r.identity, decoded.value), c, old(calls), old(audit.log));
      c := Noted(c, PolicyPassed(r.identity, decoded.value));
      if r.keyId == PLATFORM_ADMIN {
        ending := SignAsPlatform(r, decoded.value, w, c, old(calls), old(audit.log));
      } else if r.keyId != "" {
        var denied := Rejected("auth", "Key ID not authorized: " + r.keyId);
        ending := End(r, denied, Err(KeyNotAuthorized(r.keyId)), w, d, old(calls), old(audit.log));
      } else {
        ending := SendAndAudit(r, decoded.value, w, c, old(calls), old(audit.log));
      }
    }
  }

  function EndingOf(c: Call): Ending
    requires c.phase.Returned? || c.phase.Panicked?
  {
    if c.phase.Panicked? then Panic else Result(c.phase.outcome)
  }

  /** The audit log after a call with this trace: its one entry, if it was stored, is linked in. */
  function LogAfter(dep: Deployment, log: seq<AuditStores.Logged>, r: Request, w: World, trace: seq<Event>): seq<AuditStores.Logged> {
    if trace == [] || !trace[|trace| - 1].AuditCalled? || !trace[|trace| - 1].stored then log
    else AuditStores.AppendLog(dep.auditEncoding, log, EntryFor(r, trace[|trace| - 1].entry, w.nowMs))
  }

  // ---- Confirmation -------------------------------------------------------------------------

  datatype ConfirmOutcome = Confirmed(slot: nat) | Errored | Pending

  /** One poll of the signature status; a status may carry an error and may lack a slot. */
  datatype Poll = RpcFailed | NotFound | Status(errored: bool, slot: Option<nat>)

  predicate Undecided(p: Poll) {
    !p.Status? || (!p.errored && p.slot.None?)
  }

  /**
   What polling with `attempts` polls left concludes once these answers are in; none while it is
   still waiting.
   */
  function Resolve(polls: seq<Poll>, attempts: nat): Option<ConfirmOutcome> {
    if attempts == 0 then Some(Pending)
    else if polls == [] then None
    else if polls[0].Status? && polls[0].errored then Some(Errored)
    else if polls[0].Status? && polls[0].slot.Some? then Some(Confirmed(polls[0].slot.value))
    else Resolve(polls[1..], attempts - 1)
  }

  /** The polls so far were undecided, or an outcome stands and later polls do not matter. */
  lemma {:induction false} ResolveAppend(polls: seq<Poll>, attempts: nat, p: Poll)
    ensures Resolve(polls, attempts).Some? ==> Resolve(polls + [p], attempts) == Resolve(polls, attempts)
    ensures Resolve(polls, attempts).None? <==> |polls| < attempts && forall q :: q in polls ==> Undecided(q)
    ensures Resolve(polls, attempts).None? ==>
      Resolve(polls + [p], attempts) ==
        if !Undecided(p) then Some(if p.errored then Errored else Confirmed(p.slot.value))
        else if |polls| + 1 == attempts then Some(Pending) else None
  {
    if attempts > 0 && polls != [] {
      assert polls[0] in polls && forall q :: q in polls[1..] ==> q in polls;
      assert forall q :: q in polls ==> q == polls[0] || q in polls[1..];
      assert (polls + [p])[1..] == polls[1..] + [p];
      ResolveAppend(polls[1..], attempts - 1, p);
    } else if attempts > 0 {
      assert [p][1..] == [];
    }
  }

  function FirstPolls(polls: nat -> Poll, n: nat): (s: seq<Poll>)
    ensures |s| == n && forall k: nat :: k < n ==> s[k] == polls(k)
  {
    seq(n, k requires 0 <= k => polls(k))
  }

  /**
   Bounded polling. The answer rests on the first decisive poll within the bound: confirmed when
   it shows a slot and no error, errored when it shows an error, pending when there is none.
   */
  method ResolveConfirmationBounded(polls: nat -> Poll, attempts: nat) returns (outcome: ConfirmOutcome)
    ensures outcome.Pending? <==> forall k: nat :: k < attempts ==> Undecided(polls(k))
    ensures outcome.Errored? <==> exists k: nat :: k < attempts && polls(k).Status? && polls(k).errored
                                                   && forall j: nat :: j < k ==> Undecided(polls(j))
    ensures forall slot :: outcome == Confirmed(slot) <==>
              exists k: nat :: k < attempts && polls(k) == Status(false, Some(slot))
                               && forall j: nat :: j < k ==> Undecided(polls(j))
    ensures exists n: nat :: n <= attempts && Resolve(FirstPolls(polls, n), attempts) == Some(outcome)
  {
    var n := 0;
    while n < attempts
      invariant n <= attempts && forall k: nat :: k < n ==> Undecided(polls(k))
      invariant Resolve(FirstPolls(polls, n), attempts) == if n < attempts then None else Some(Pending)
    {
      var p := polls(n);
      ResolveAppend(FirstPolls(polls, n), attempts, p);
      assert FirstPolls(polls, n + 1) == FirstPolls(polls, n) + [p];
      if p.Status? {
        if p.errored {
          assert !Undecided(p);
          return Errored;
        }
        if p.slot.Some? {
          assert !Undecided(p);
          return Confirmed(p.slot.value);
        }
      }
      n := n + 1;
    }
    outcome := Pending;
  }
}
