/** Safety of the signing pipeline over every answer sequence and every interleaving of calls. */
module PipelineSafety {
  import opened Common
  import opened Deployment
  import opened AuditChain
  import opened Pipeline
  import AuditStores
  import Consumer
  import ConsumerExclusion

  // ---- Every call keeps its trace in shape --------------------------------------------------

  lemma EnterSigningOk(dep: Deployment, c: Call, tx: Transaction)
    requires BeforeSigning(dep, c.request, tx, c.trace)
    ensures CallOk(dep, EnterSigning(dep, c, tx))
  {
    var d := EnterSigning(dep, c, tx);
    if SignersReadable(tx.message) {
      assert d.trace[..|d.trace| - 1] == c.trace;
    }
  }

  lemma EnterSimulationOk(dep: Deployment, c: Call, tx: Transaction)
    requires Cleared(dep, c.request, tx, c.trace)
    ensures CallOk(dep, EnterSimulation(dep, c, tx))
  {
    if dep.presignDisabled {
      var received :| Passed(dep, c.request, received) && FilledFrom(received, tx)
                      && c.trace == [PolicyPassed(c.request.identity, received)];
      assert c.trace == Preflight(dep, c.request, received, tx, Ok(None));
      EnterSigningOk(dep, c, tx);
    }
  }

  lemma StartOk(dep: Deployment, c: Call)
    requires c.phase.Ready? && c.trace == []
    ensures CallOk(dep, Start(dep, c))
  {
    var decoded := dep.decode(c.request.serialized);
    if decoded.Some? && dep.policyObjection(c.request.identity, decoded.value).None? {
      var tx := decoded.value;
      var d := Noted(c, PolicyPassed(c.request.identity, tx));
      assert d.trace == [PolicyPassed(c.request.identity, tx)];
      assert Passed(dep, c.request, tx) && FilledFrom(tx, tx);
      if c.request.keyId == PLATFORM_ADMIN {
        assert Cleared(dep, d.request, tx, d.trace);
        if tx.message.recentBlockhash != DEFAULT_BLOCKHASH { EnterSimulationOk(dep, d, tx); }
      } else if c.request.keyId == "" {
        var e := EnterSending(d, tx);
        assert SentTrace(dep, c.request, tx, tx, Ok(None), tx, e.trace);
      }
    }
  }

  lemma FillOk(dep: Deployment, c: Call, tx: Transaction, hash: Bytes)
    requires c.phase == Filling(tx) && CallOk(dep, c)
    ensures CallOk(dep, EnterSimulation(dep, c, WithBlockhash(tx, hash)))
  {
    var received :| Passed(dep, c.request, received) && FilledFrom(received, tx)
                    && c.trace == [PolicyPassed(c.request.identity, received)];
    assert FilledFrom(received, WithBlockhash(tx, hash));
    EnterSimulationOk(dep, c, WithBlockhash(tx, hash));
  }

  lemma SimulateOk(dep: Deployment, c: Call, tx: Transaction, verdict: Result<Option<string>, string>)
    requires c.phase == Simulating(tx) && CallOk(dep, c)
    ensures CallOk(dep, Advance(dep, c, Simulation(verdict)))
  {
    var received :| Passed(dep, c.request, received) && FilledFrom(received, tx)
                    && c.trace == [PolicyPassed(c.request.identity, received)];
    var d := Noted(c, Simulated(tx, verdict));
    assert d.trace[..1] == c.trace;
    if !Definitive(verdict) {
      assert d.trace == Preflight(dep, c.request, received, tx, verdict);
      EnterSigningOk(dep, d, tx);
    }
  }

  lemma AttachOk(dep: Deployment, c: Call, tx: Transaction, signature: Signature)
    requires c.phase == Signing(tx) && CallOk(dep, c)
    ensures CallOk(dep, AttachSignature(c, tx, signature))
  {
    var before := c.trace[..|c.trace| - 1];
    var received, verdict :| Passed(dep, c.request, received) && FilledFrom(received, tx) && !Definitive(verdict)
                             && before == Preflight(dep, c.request, received, tx, verdict);
    var padded := Padded(tx.signatures, tx.message.numRequiredSignatures);
    if padded != [] {
      var sent := tx.(signatures := padded[0 := signature]);
      assert SignedFrom(tx, sent);
      var d := EnterSending(c, sent);
      assert c.trace == before + [Pipeline.Vault(dep, tx)];
      assert d.trace == before + [Pipeline.Vault(dep, tx), SendCalled(sent)];
      assert SentTrace(dep, c.request, received, tx, verdict, sent, d.trace);
    }
  }

  lemma AdvanceOk(dep: Deployment, c: Call, a: Answer)
    requires CallOk(dep, c)
    ensures CallOk(dep, Advance(dep, c, a))
  {
    var d := Advance(dep, c, a);
    match (c.phase, a)
    case (Ready, Begin) => StartOk(dep, c);
    case (Filling(tx), Blockhash(hash)) => if hash.Ok? { FillOk(dep, c, tx, hash.value); }
    case (Simulating(tx), Simulation(verdict)) => SimulateOk(dep, c, tx, verdict);
    case (Signing(tx), VaultSignature(signature)) => if signature.Ok? { AttachOk(dep, c, tx, signature.value); }
    case (Sending(tx), Sent(signature)) => if signature.Ok? { assert d.trace[..|d.trace| - 1] == c.trace; }
    case (Auditing(entry, outcome), Appended(ok)) => assert d.trace[..|d.trace| - 1] == c.trace;
    case _ =>
  }

  lemma {:induction false} DriveOk(dep: Deployment, r: Request, answers: seq<Answer>)
    ensures CallOk(dep, Drive(dep, r, answers)) && Drive(dep, r, answers).request == r
  {
    if answers != [] {
      DriveOk(dep, r, answers[..|answers| - 1]);
      AdvanceOk(dep, Drive(dep, r, answers[..|answers| - 1]), answers[|answers| - 1]);
    }
  }

  // ---- What a trace in shape says -----------------------------------------------------------

  ghost predicate AfterSend(e: Event) {
    e.SendAccepted? || e.AuditCalled?
  }

  /** A call's trace without what may follow a send: its acceptance and the audit append. */
  ghost function Core(c: Call): (core: seq<Event>)
    ensures |core| <= |c.trace| && core == c.trace[..|core|]
    ensures forall j :: |core| <= j < |c.trace| ==> AfterSend(c.trace[j])
  {
    var t := if c.trace != [] && c.trace[|c.trace| - 1].AuditCalled? then c.trace[..|c.trace| - 1] else c.trace;
    if t != [] && t[|t| - 1].SendAccepted? then t[..|t| - 1] else t
  }

  /** A trace before its audit append, without the acceptance of a send. */
  ghost function Unaccepted(trace: seq<Event>): seq<Event> {
    if trace != [] && trace[|trace| - 1].SendAccepted? then trace[..|trace| - 1] else trace
  }

  lemma EndingSends(dep: Deployment, r: Request, entry: AuditOutcome, outcome: Outcome, trace: seq<Event>)
    requires EndingOk(dep, r, entry, outcome, trace)
    ensures trace != [] ==> !trace[|trace| - 1].AuditCalled?
    ensures var core := Unaccepted(trace);
      HasSentSome(dep, r, core) || forall j :: 0 <= j < |core| ==> !core[j].SendCalled?
  {
  }

  lemma VaultSendsNothing(dep: Deployment, r: Request, tx: Transaction, trace: seq<Event>)
    requires VaultCalledFor(dep, r, tx, trace)
    ensures forall j :: 0 <= j < |trace| ==> !trace[j].SendCalled? && !AfterSend(trace[j])
  {
    var before := trace[..|trace| - 1];
    assert forall j :: 0 <= j < |before| ==> trace[j] == before[j];
  }

  lemma UnauditedSendsNothing(dep: Deployment, r: Request, outcome: Outcome, trace: seq<Event>)
    requires UnauditedOk(dep, r, outcome, trace)
    ensures forall j :: 0 <= j < |trace| ==> !trace[j].SendCalled? && !AfterSend(trace[j])
  {
    if outcome.error.VaultSigningFailed? {
      var tx :| VaultCalledFor(dep, r, tx, trace);
      VaultSendsNothing(dep, r, tx, trace);
    }
  }

  lemma CoreSends(dep: Deployment, c: Call)
    requires CallOk(dep, c)
    ensures HasSentSome(dep, c.request, Core(c)) || forall j :: 0 <= j < |Core(c)| ==> !Core(c)[j].SendCalled?
  {
    match c.phase
    case Auditing(entry, outcome) => EndingSends(dep, c.request, entry, outcome, c.trace);
    case Returned(outcome) =>
      if !UnauditedOk(dep, c.request, outcome, c.trace) {
        var last := |c.trace| - 1;
        EndingSends(dep, c.request, c.trace[last].entry, outcome, c.trace[..last]);
      } else {
        UnauditedSendsNothing(dep, c.request, outcome, c.trace);
      }
    case Signing(tx) => VaultSendsNothing(dep, c.request, tx, c.trace);
    case Panicked =>
      if tx :| VaultCalledFor(dep, c.request, tx, c.trace) { VaultSendsNothing(dep, c.request, tx, c.trace); }
    case _ =>
  }

  lemma CoreVault(dep: Deployment, c: Call)
    requires CallOk(dep, c)
    ensures || HasSentSome(dep, c.request, Core(c))
            || (exists tx :: VaultCalledFor(dep, c.request, tx, Core(c)))
            || forall j :: 0 <= j < |Core(c)| ==> !Core(c)[j].VaultCalled?
  {
    match c.phase
    case Signing(tx) => VaultSendsNothing(dep, c.request, tx, c.trace);
    case Panicked =>
      if tx :| VaultCalledFor(dep, c.request, tx, c.trace) { VaultSendsNothing(dep, c.request, tx, c.trace); }
    case Auditing(entry, outcome) => EndingVault(dep, c.request, entry, outcome, c.trace);
    case Returned(outcome) =>
      if UnauditedOk(dep, c.request, outcome, c.trace) {
        UnauditedSendsNothing(dep, c.request, outcome, c.trace);
      } else {
        var last := |c.trace| - 1;
        EndingVault(dep, c.request, c.trace[last].entry, outcome, c.trace[..last]);
      }
    case _ =>
  }

  lemma EndingVault(dep: Deployment, r: Request, entry: AuditOutcome, outcome: Outcome, trace: seq<Event>)
    requires EndingOk(dep, r, entry, outcome, trace)
    ensures trace != [] ==> !trace[|trace| - 1].AuditCalled?
    ensures var core := Unaccepted(trace);
      HasSentSome(dep, r, core) || forall j :: 0 <= j < |core| ==> !core[j].VaultCalled?
  {
  }

  /** In a core with a send, the send is the last call. */
  lemma SendIsLast(dep: Deployment, r: Request, core: seq<Event>, i: nat)
    returns (received: Transaction, filled: Transaction, verdict: Result<Option<string>, string>)
    requires HasSentSome(dep, r, core) && i < |core| && core[i].SendCalled?
    ensures i == |core| - 1 && SentTrace(dep, r, received, filled, verdict, core[i].tx, core)
  {
    var sent :| HasSent(dep, r, sent, core);
    received, filled, verdict :| SentTrace(dep, r, received, filled, verdict, sent, core);
  }

  /** In a core with a send, the Vault call is right before it. */
  lemma VaultBeforeSend(dep: Deployment, r: Request, core: seq<Event>, v: nat) returns (tx: Transaction)
    requires HasSentSome(dep, r, core) && v < |core| && core[v].VaultCalled?
    ensures v == |core| - 2 && core[v + 1].SendCalled? && VaultCalledFor(dep, r, tx, core[..v + 1])
  {
    var sent :| HasSent(dep, r, sent, core);
    var received, filled, verdict :| SentTrace(dep, r, received, filled, verdict, sent, core);
    tx := filled;
    assert core[..v + 1][..v] == Preflight(dep, r, received, filled, verdict);
  }

  lemma VaultIsLast(dep: Deployment, r: Request, core: seq<Event>, tx: Transaction, v: nat)
    requires VaultCalledFor(dep, r, tx, core) && v < |core| && core[v].VaultCalled?
    ensures v == |core| - 1
  {
    var pre := core[..|core| - 1];
    assert forall j :: 0 <= j < |pre| ==> core[j] == pre[j];
  }

  lemma TraceAtSend(dep: Deployment, c: Call, i: nat)
    returns (received: Transaction, filled: Transaction, verdict: Result<Option<string>, string>)
    requires CallOk(dep, c) && i < |c.trace| && c.trace[i].SendCalled?
    ensures SentTrace(dep, c.request, received, filled, verdict, c.trace[i].tx, c.trace[..i + 1])
    ensures forall j :: i < j < |c.trace| ==> AfterSend(c.trace[j])
  {
    var core := Core(c);
    CoreSends(dep, c);
    assert core[i] == c.trace[i];
    received, filled, verdict := SendIsLast(dep, c.request, core, i);
  }

  lemma SentIsAuthorised(dep: Deployment, c: Call, i: nat) returns (received: Transaction, filled: Transaction)
    requires CallOk(dep, c) && i < |c.trace| && c.trace[i].SendCalled?
    ensures Passed(dep, c.request, received) && i > 0 && c.trace[0] == PolicyPassed(c.request.identity, received)
    ensures c.request.keyId == "" || c.request.keyId == PLATFORM_ADMIN
    ensures c.request.keyId == "" ==> c.trace[i].tx == received
    ensures c.request.keyId != "" ==> FilledFrom(received, filled) && SignedFrom(filled, c.trace[i].tx)
    ensures NoDefinitiveFailure(c.trace)
  {
    var verdict;
    received, filled, verdict := TraceAtSend(dep, c, i);
    var head := c.trace[..i + 1];
    assert forall j :: 0 <= j <= i ==> c.trace[j] == head[j];
  }

  /**
   Every transaction sent was allowed by policy for the caller's identity, with the same
   instructions and account keys; under an empty key id it is the received one, under the platform
   key it differs only in a previously default blockhash, which is the one this call was given,
   slot 0, which holds the signature Vault gave this call, and default-signature padding; no other
   key id sends. No simulation of it had definitively failed.
   */
  lemma SendsAreAuthorised(dep: Deployment, r: Request, answers: seq<Answer>, i: nat)
    returns (received: Transaction, filled: Transaction)
    requires i < |Drive(dep, r, answers).trace| && Drive(dep, r, answers).trace[i].SendCalled?
    ensures dep.decode(r.serialized) == Some(received) && dep.policyObjection(r.identity, received) == None
    ensures i > 0 && Drive(dep, r, answers).trace[0] == PolicyPassed(r.identity, received)
    ensures r.keyId == "" || r.keyId == "platform_admin"
    ensures var sent := Drive(dep, r, answers).trace[i].tx;
      && sent.message.instructions == received.message.instructions
      && sent.message.accountKeys == received.message.accountKeys
      && (r.keyId == "" ==> sent == received)
      && (r.keyId != "" ==> FilledFrom(received, filled) && SignedFrom(filled, sent))
      && (r.keyId != "" ==> SentBy(dep, r, GivenBy(dep, r, answers), sent))
    ensures NoDefinitiveFailure(Drive(dep, r, answers).trace)
  {
    DriveOk(dep, r, answers);
    received, filled := SentIsAuthorised(dep, Drive(dep, r, answers), i);
    if r.keyId != "" { SentCarriesTheAnswers(dep, r, answers, i); }
  }

  ghost predicate NoDefinitiveFailure(trace: seq<Event>) {
    forall j :: 0 <= j < |trace| && trace[j].Simulated? ==> trace[j].verdict.Err? || trace[j].verdict.value.None?
  }

  lemma TraceAtVault(dep: Deployment, c: Call, v: nat) returns (tx: Transaction)
    requires CallOk(dep, c) && v < |c.trace| && c.trace[v].VaultCalled?
    ensures VaultCalledFor(dep, c.request, tx, c.trace[..v + 1])
    ensures forall j :: v < j < |c.trace| ==> AfterSend(c.trace[j]) || c.trace[j].SendCalled?
  {
    var core := Core(c);
    CoreVault(dep, c);
    assert core[v] == c.trace[v];
    assert c.trace[..v + 1] == core[..v + 1];
    if HasSentSome(dep, c.request, core) {
      tx := VaultBeforeSend(dep, c.request, core, v);
    } else {
      tx :| VaultCalledFor(dep, c.request, tx, core);
      VaultIsLast(dep, c.request, core, tx, v);
      assert core[..v + 1] == core;
    }
  }

  /**
   Vault is called only under the platform key, after policy and, unless that is switched off,
   after a simulation of the very message it then signs; never after a definitive simulation
   failure; and on exactly the bytes of the message that is then sent.
   */
  lemma VaultCallsAreBound(dep: Deployment, r: Request, answers: seq<Answer>, v: nat)
    requires v < |Drive(dep, r, answers).trace| && Drive(dep, r, answers).trace[v].VaultCalled?
    ensures var trace := Drive(dep, r, answers).trace;
      && r.keyId == "platform_admin" && trace[v].keyName == dep.transitKeyName
      && v == (if dep.presignDisabled then 1 else 2) && trace[0].PolicyPassed?
      && (!dep.presignDisabled ==> trace[1].Simulated? && dep.messageData(trace[1].tx.message) == trace[v].bytes)
      && NoDefinitiveFailure(trace)
      && (forall j :: 0 <= j < |trace| && trace[j].SendCalled? ==>
            v < j && trace[v].bytes == dep.messageData(trace[j].tx.message))
  {
    DriveOk(dep, r, answers);
    var c := Drive(dep, r, answers);
    BoundAtVault(dep, c, v);
    forall j | 0 <= j < |c.trace| && c.trace[j].SendCalled?
      ensures v < j && c.trace[v].bytes == dep.messageData(c.trace[j].tx.message)
    {
      VaultBytesAreSent(dep, c, v, j);
    }
  }

  lemma BoundAtVault(dep: Deployment, c: Call, v: nat)
    requires CallOk(dep, c) && v < |c.trace| && c.trace[v].VaultCalled?
    ensures c.request.keyId == PLATFORM_ADMIN && c.trace[v].keyName == dep.transitKeyName
    ensures v == (if dep.presignDisabled then 1 else 2) && c.trace[0].PolicyPassed?
    ensures !dep.presignDisabled ==> c.trace[1].Simulated? && dep.messageData(c.trace[1].tx.message) == c.trace[v].bytes
    ensures NoDefinitiveFailure(c.trace)
  {
    var trace := c.trace;
    var tx := TraceAtVault(dep, c, v);
    var head := trace[..v + 1];
    assert head[..|head| - 1] == trace[..v];
    assert forall j :: 0 <= j < v ==> trace[j] == trace[..v][j];
    assert trace[v] == head[v];
  }

  lemma VaultBytesAreSent(dep: Deployment, c: Call, v: nat, j: nat)
    requires CallOk(dep, c) && v < |c.trace| && j < |c.trace| && c.trace[v].VaultCalled? && c.trace[j].SendCalled?
    ensures v < j && c.trace[v].bytes == dep.messageData(c.trace[j].tx.message)
  {
    var received, filled, verdict := TraceAtSend(dep, c, j);
    var head := c.trace[..j + 1];
    assert c.trace[j] == head[j];
    assert v <= j ==> c.trace[v] == head[v];
  }

  // ---- What the answers put into the sent transaction -----------------------------------------

  /** The blockhash and the Vault signature a call was given, if any. */
  datatype Given = Given(hash: Option<Bytes>, vault: Option<Signature>)

  /** What an answer adds, in the phase that waits for it. */
  function Learn(g: Given, phase: Phase, a: Answer): Given {
    if phase.Filling? && a.Blockhash? && a.hash.Ok? then g.(hash := Some(a.hash.value))
    else if phase.Signing? && a.VaultSignature? && a.signature.Ok? then g.(vault := Some(a.signature.value))
    else g
  }

  /** What this answer sequence has given the call. */
  function GivenBy(dep: Deployment, r: Request, answers: seq<Answer>): Given {
    if answers == [] then Given(None, None)
    else
      var n := |answers| - 1;
      Learn(GivenBy(dep, r, answers[..n]), Drive(dep, r, answers[..n]).phase, answers[n])
  }

  /** The received transaction, its default blockhash replaced by the one given. */
  ghost predicate FilledBy(dep: Deployment, r: Request, g: Given, tx: Transaction) {
    && dep.decode(r.serialized).Some?
    && var received := dep.decode(r.serialized).value;
       && tx.signatures == received.signatures
       && tx.message == received.message.(recentBlockhash := tx.message.recentBlockhash)
       && if received.message.recentBlockhash == ZEROS then g.hash == Some(tx.message.recentBlockhash)
          else tx.message.recentBlockhash == received.message.recentBlockhash
  }

  /** The sent transaction has the message filled so, and the Vault signature given in slot 0. */
  ghost predicate SentBy(dep: Deployment, r: Request, g: Given, tx: Transaction) {
    && tx.signatures != [] && g.vault == Some(tx.signatures[0])
    && dep.decode(r.serialized).Some?
    && FilledBy(dep, r, g, tx.(signatures := dep.decode(r.serialized).value.signatures))
  }

  ghost predicate SendsBy(dep: Deployment, r: Request, g: Given, trace: seq<Event>) {
    r.keyId == PLATFORM_ADMIN ==> forall j :: 0 <= j < |trace| && trace[j].SendCalled? ==> SentBy(dep, r, g, trace[j].tx)
  }

  ghost predicate SendsNothing(trace: seq<Event>) {
    forall j :: 0 <= j < |trace| ==> !trace[j].SendCalled?
  }

  /** Nothing is sent before the last answer that matters is in. */
  ghost predicate GivenOk(dep: Deployment, c: Call, g: Given) {
    match c.phase
    case Ready => SendsNothing(c.trace)
    case Filling(tx) =>
      SendsNothing(c.trace) && dep.decode(c.request.serialized) == Some(tx) && tx.message.recentBlockhash == ZEROS
    case Simulating(tx) => SendsNothing(c.trace) && FilledBy(dep, c.request, g, tx)
    case Signing(tx) => SendsNothing(c.trace) && FilledBy(dep, c.request, g, tx)
    case _ => SendsBy(dep, c.request, g, c.trace)
  }

  lemma EnterSigningGiven(dep: Deployment, c: Call, tx: Transaction, g: Given)
    requires SendsNothing(c.trace) && FilledBy(dep, c.request, g, tx)
    ensures GivenOk(dep, EnterSigning(dep, c, tx), g) && GivenOk(dep, EnterSimulation(dep, c, tx), g)
  {
  }

  lemma StartGiven(dep: Deployment, c: Call, g: Given)
    requires c.phase.Ready? && GivenOk(dep, c, g)
    ensures GivenOk(dep, Start(dep, c), g)
  {
    var decoded := dep.decode(c.request.serialized);
    if decoded.Some? {
      var d := Noted(c, PolicyPassed(c.request.identity, decoded.value));
      assert SendsNothing(d.trace);
      if decoded.value.message.recentBlockhash != ZEROS { EnterSigningGiven(dep, d, decoded.value, g); }
    }
  }

  lemma AttachGiven(dep: Deployment, c: Call, tx: Transaction, signature: Signature, g: Given)
    requires SendsNothing(c.trace) && FilledBy(dep, c.request, g, tx) && g.vault == Some(signature)
    ensures GivenOk(dep, AttachSignature(c, tx, signature), g)
  {
    var padded := Padded(tx.signatures, tx.message.numRequiredSignatures);
    if padded != [] {
      var sent := tx.(signatures := padded[0 := signature]);
      var received := dep.decode(c.request.serialized).value;
      assert sent.(signatures := received.signatures) == tx;
      assert SentBy(dep, c.request, g, sent);
    }
  }

  lemma AdvanceGiven(dep: Deployment, c: Call, a: Answer, g: Given)
    requires GivenOk(dep, c, g)
    ensures GivenOk(dep, Advance(dep, c, a), Learn(g, c.phase, a))
  {
    match (c.phase, a)
    case (Ready, Begin) => StartGiven(dep, c, g);
    case (Filling(tx), Blockhash(hash)) =>
      if hash.Ok? { EnterSigningGiven(dep, c, WithBlockhash(tx, hash.value), Learn(g, c.phase, a)); }
    case (Simulating(tx), Simulation(verdict)) => EnterSigningGiven(dep, Noted(c, Simulated(tx, verdict)), tx, g);
    case (Signing(tx), VaultSignature(signature)) =>
      if signature.Ok? { AttachGiven(dep, c, tx, signature.value, Learn(g, c.phase, a)); }
    case _ =>
  }

  lemma {:induction false} DriveGiven(dep: Deployment, r: Request, answers: seq<Answer>)
    ensures GivenOk(dep, Drive(dep, r, answers), GivenBy(dep, r, answers)) && Drive(dep, r, answers).request == r
  {
    if answers != [] {
      var n := |answers| - 1;
      DriveGiven(dep, r, answers[..n]);
      AdvanceGiven(dep, Drive(dep, r, answers[..n]), answers[n], GivenBy(dep, r, answers[..n]));
    }
  }

  /**
   Under the platform key, whatever the answers: the sent transaction carries in slot 0 exactly the
   signature Vault gave this call, and in place of a default blockhash exactly the one this call was
   given.
   */
  lemma SentCarriesTheAnswers(dep: Deployment, r: Request, answers: seq<Answer>, i: nat)
    requires r.keyId == "platform_admin"
    requires i < |Drive(dep, r, answers).trace| && Drive(dep, r, answers).trace[i].SendCalled?
    ensures SentBy(dep, r, GivenBy(dep, r, answers), Drive(dep, r, answers).trace[i].tx)
  {
    DriveGiven(dep, r, answers);
  }

  /** A message with a required signature and a key for each never makes signing panic. */
  lemma SaneHeaderNeverPanics(dep: Deployment, r: Request, answers: seq<Answer>, received: Transaction)
    requires dep.decode(r.serialized) == Some(received)
    requires 1 <= received.message.numRequiredSignatures <= |received.message.accountKeys|
    ensures !Drive(dep, r, answers).phase.Panicked?
  {
    DriveOk(dep, r, answers);
  }

  // ---- Static errors stay out of the retry loop ---------------------------------------------

  predicate IsStatic(stage: Stage) {
    stage.InvalidFormat? || stage.PolicyRejected? || stage.KeyNotAuthorized?
  }

  /**
   For every submit run that any interleaving of the consumer ever admits, no signing attempt on
   its behalf, whatever the outside world answers, can fail with a static error.
   */
  lemma RetriesNeverSeeStaticErrors(dep: Deployment, clockMs: nat, actions: seq<Consumer.Action>, i: nat, answers: seq<Answer>)
    requires i < |Consumer.Exec(dep, Consumer.Fresh(clockMs), actions).runs|
    requires Consumer.Exec(dep, Consumer.Fresh(clockMs), actions).runs[i].envelope.body.SubmitTx?
    ensures var e := Consumer.Exec(dep, Consumer.Fresh(clockMs), actions).runs[i].envelope;
            var c := Drive(dep, Request(e.body.serializedTx, e.body.keyId, e.serviceIdentity, e.correlationId), answers);
      c.phase.Returned? && c.phase.outcome.Err? ==> !IsStatic(c.phase.outcome.error)
  {
    var e := Consumer.Exec(dep, Consumer.Fresh(clockMs), actions).runs[i].envelope;
    ConsumerExclusion.WellFormedExec(dep, clockMs, actions);
    DriveOk(dep, Request(e.body.serializedTx, e.body.keyId, e.serviceIdentity, e.correlationId), answers);
  }

  // ---- Interleaved calls over one audit log -------------------------------------------------

  /** `audit` is the log of the in-memory store, hashes included. */
  datatype System = System(calls: seq<Call>, audit: seq<AuditStores.Logged>)

  /** `atMs` is the clock when an entry is made, if the action makes one. */
  datatype SystemAction =
    | Open(request: Request)
    | Reply(call: nat, answer: Answer, atMs: U64)
    | ConsumerRejection(entry: AuditEntry)

  function EntryFor(r: Request, outcome: AuditOutcome, atMs: U64): AuditEntry {
    NewEntry(r.correlationId, r.identity, "sign_and_submit", outcome, atMs)
  }

  function SystemStep(dep: Deployment, s: System, a: SystemAction): System {
    match a
    case Open(r) => s.(calls := s.calls + [Call(r, Ready, [])])
    case Reply(i, answer, atMs) =>
      if i >= |s.calls| then s
      else
        var c := s.calls[i];
        System(s.calls[i := Advance(dep, c, answer)],
               if c.phase.Auditing? && answer == Appended(true)
               then AuditStores.AppendLog(dep.auditEncoding, s.audit, EntryFor(c.request, c.phase.entry, atMs)) else s.audit)
    case ConsumerRejection(entry) =>
      if entry.outcome.Rejected? then s.(audit := AuditStores.AppendLog(dep.auditEncoding, s.audit, entry)) else s
  }

  function SystemExec(dep: Deployment, actions: seq<SystemAction>): System {
    if actions == [] then System([], [])
    else SystemStep(dep, SystemExec(dep, actions[..|actions| - 1]), actions[|actions| - 1])
  }

  /** Each interleaved call is some answer sequence's single call, so all of the above applies to it. */
  lemma {:induction false} InterleavedCallsAreDrives(dep: Deployment, actions: seq<SystemAction>, i: nat) returns (answers: seq<Answer>)
    requires i < |SystemExec(dep, actions).calls|
    ensures SystemExec(dep, actions).calls[i] == Drive(dep, SystemExec(dep, actions).calls[i].request, answers)
  {
    var n := |actions| - 1;
    var s, a := SystemExec(dep, actions[..n]), actions[n];
    if i == |s.calls| {
      answers := [];
    } else {
      answers := InterleavedCallsAreDrives(dep, actions[..n], i);
      DriveOk(dep, s.calls[i].request, answers);
      if a.Reply? && a.call == i {
        var before := answers;
        answers := before + [a.answer];
        assert answers[..|before|] == before;
        DriveOk(dep, s.calls[i].request, answers);
      }
    }
  }

  function One(b: bool): nat {
    if b then 1 else 0
  }

  function SubmittedCount(audit: seq<AuditStores.Logged>): nat {
    if audit == [] then 0 else SubmittedCount(audit[..|audit| - 1]) + One(audit[|audit| - 1].entry.outcome.Submitted?)
  }

  function SendsIn(trace: seq<Event>): nat {
    if trace == [] then 0 else SendsIn(trace[..|trace| - 1]) + One(trace[|trace| - 1].SendAccepted?)
  }

  function AuditCallsIn(trace: seq<Event>): nat {
    if trace == [] then 0 else AuditCallsIn(trace[..|trace| - 1]) + One(trace[|trace| - 1].AuditCalled?)
  }

  predicate IsLost(e: Event) {
    e.AuditCalled? && e.entry.Submitted? && !e.stored
  }

  function LostIn(trace: seq<Event>): nat {
    if trace == [] then 0 else LostIn(trace[..|trace| - 1]) + One(IsLost(trace[|trace| - 1]))
  }

  /** Sends that returned Ok. */
  function SendsOk(c: Call): nat {
    SendsIn(c.trace)
  }

  /** Appends of a `Submitted` entry that the store refused (best effort: the call goes on). */
  function LostAppends(c: Call): nat {
    LostIn(c.trace)
  }

  /** Between its successful send and the append of its entry. */
  function AwaitingAppend(c: Call): nat {
    One(c.phase.Auditing? && c.phase.entry.Submitted?)
  }

  function Total(calls: seq<Call>, f: Call -> nat): nat {
    if calls == [] then 0 else Total(calls[..|calls| - 1], f) + f(calls[|calls| - 1])
  }

  lemma {:induction false} TotalUpdate(calls: seq<Call>, i: nat, c: Call, f: Call -> nat)
    requires i < |calls|
    ensures Total(calls[i := c], f) == Total(calls, f) - f(calls[i]) + f(c)
  {
    var n := |calls| - 1;
    if i == n {
      assert calls[i := c][..n] == calls[..n];
    } else {
      TotalUpdate(calls[..n], i, c, f);
      assert calls[i := c][..n] == calls[..n][i := c];
    }
  }

  lemma TotalAppend(calls: seq<Call>, c: Call, f: Call -> nat)
    ensures Total(calls + [c], f) == Total(calls, f) + f(c)
  {
    assert (calls + [c])[..|calls|] == calls;
  }

  lemma NotedCounts(c: Call, e: Event)
    ensures SendsIn(Noted(c, e).trace) == SendsIn(c.trace) + One(e.SendAccepted?)
    ensures AuditCallsIn(Noted(c, e).trace) == AuditCallsIn(c.trace) + One(e.AuditCalled?)
    ensures LostIn(Noted(c, e).trace) == LostIn(c.trace) + One(IsLost(e))
  {
    assert (c.trace + [e])[..|c.trace|] == c.trace;
  }

  predicate IsAudited(outcome: Outcome) {
    outcome.Ok? || !(outcome.error.InvalidFormat? || outcome.error.BlockhashRefreshFailed? || outcome.error.VaultSigningFailed?)
  }

  /** An audited ending has its one entry once the call returned; nothing else has any. */
  ghost predicate AuditedOnce(c: Call) {
    && AuditCallsIn(c.trace) == One(c.phase.Returned? && IsAudited(c.phase.outcome))
    && (c.phase.Auditing? ==> IsAudited(c.phase.outcome))
  }

  ghost predicate SameCounts(c: Call, d: Call) {
    && SendsIn(d.trace) == SendsIn(c.trace) && AuditCallsIn(d.trace) == AuditCallsIn(c.trace)
    && LostIn(d.trace) == LostIn(c.trace)
  }

  /** Nothing was sent or appended, and no success is on its way. */
  ghost predicate Quiet(c: Call, d: Call) {
    && SameCounts(c, d)
    && (d.phase.Auditing? ==> d.phase.entry.Rejected? && IsAudited(d.phase.outcome))
    && (d.phase.Returned? ==> !IsAudited(d.phase.outcome))
  }

  lemma EntriesAreQuiet(dep: Deployment, c: Call, tx: Transaction)
    ensures Quiet(c, EnterSimulation(dep, c, tx)) && Quiet(c, EnterSigning(dep, c, tx)) && Quiet(c, EnterSending(c, tx))
  {
    NotedCounts(Entered(c, Signing(tx)), Pipeline.Vault(dep, tx));
    NotedCounts(Entered(c, Sending(tx)), SendCalled(tx));
  }

  lemma PassedStartIsQuiet(dep: Deployment, c: Call, tx: Transaction)
    requires dep.decode(c.request.serialized) == Some(tx) && dep.policyObjection(c.request.identity, tx) == None
    ensures Quiet(c, Start(dep, c))
  {
    var d := Noted(c, PolicyPassed(c.request.identity, tx));
    NotedCounts(c, PolicyPassed(c.request.identity, tx));
    if c.request.keyId == PLATFORM_ADMIN {
      FillingIsQuiet(dep, d, tx);
      QuietAfter(c, d, EnterFilling(dep, d, tx));
    } else if c.request.keyId == "" {
      EntriesAreQuiet(dep, d, tx);
      QuietAfter(c, d, EnterSending(d, tx));
    }
  }

  lemma FillingIsQuiet(dep: Deployment, c: Call, tx: Transaction)
    ensures Quiet(c, EnterFilling(dep, c, tx))
  {
    EntriesAreQuiet(dep, c, tx);
  }

  lemma QuietAfter(c: Call, d: Call, e: Call)
    requires SameCounts(c, d) && Quiet(d, e)
    ensures Quiet(c, e)
  {
  }

  lemma StartIsQuiet(dep: Deployment, c: Call)
    ensures Quiet(c, Start(dep, c))
  {
    var decoded := dep.decode(c.request.serialized);
    if decoded.Some? && dep.policyObjection(c.request.identity, decoded.value) == None {
      PassedStartIsQuiet(dep, c, decoded.value);
    }
  }

  lemma AttachIsQuiet(dep: Deployment, c: Call, tx: Transaction, signature: Signature)
    ensures Quiet(c, AttachSignature(c, tx, signature))
  {
    var padded := Padded(tx.signatures, tx.message.numRequiredSignatures);
    if padded != [] { EntriesAreQuiet(dep, c, tx.(signatures := padded[0 := signature])); }
  }

  lemma SimulationIsQuiet(dep: Deployment, c: Call, tx: Transaction, verdict: Result<Option<string>, string>)
    requires c.phase == Simulating(tx)
    ensures Quiet(c, Advance(dep, c, Simulation(verdict)))
  {
    var d := Noted(c, Simulated(tx, verdict));
    NotedCounts(c, Simulated(tx, verdict));
    if !Definitive(verdict) {
      EntriesAreQuiet(dep, d, tx);
      assert Advance(dep, c, Simulation(verdict)) == EnterSigning(dep, d, tx);
    }
  }

  /** Before the send nothing is counted: policy, Vault and send calls are not yet effects. */
  lemma BeforeSendIsQuiet(dep: Deployment, c: Call, a: Answer)
    requires c.phase.Ready? || c.phase.Filling? || c.phase.Simulating? || c.phase.Signing?
    ensures Quiet(c, Advance(dep, c, a))
  {
    match c.phase
    case Ready => StartIsQuiet(dep, c);
    case Filling(tx) =>
      if a.Blockhash? && a.hash.Ok? { EntriesAreQuiet(dep, c, WithBlockhash(tx, a.hash.value)); }
    case Simulating(tx) => if a.Simulation? { SimulationIsQuiet(dep, c, tx, a.verdict); }
    case Signing(tx) =>
      if a.VaultSignature? && a.signature.Ok? { AttachIsQuiet(dep, c, tx, a.signature.value); }
  }

  /** One answer moves at most one unit, and never out of the sum. */
  lemma AdvanceBalances(dep: Deployment, c: Call, a: Answer)
    ensures var d := Advance(dep, c, a);
      SendsOk(d) + AwaitingAppend(c) + LostAppends(c)
      == SendsOk(c) + AwaitingAppend(d) + LostAppends(d)
         + One(c.phase.Auditing? && c.phase.entry.Submitted? && a == Appended(true))
    ensures AuditedOnce(c) ==> AuditedOnce(Advance(dep, c, a))
  {
    match c.phase
    case Sending(tx) => if a.Sent? && a.signature.Ok? { NotedCounts(c, SendAccepted(a.signature.value)); }
    case Auditing(entry, outcome) => if a.Appended? { NotedCounts(c, AuditCalled(entry, a.ok)); }
    case Returned(_) =>
    case Panicked =>
    case _ => BeforeSendIsQuiet(dep, c, a);
  }

  /** Submitted entries, pending ones and refused ones account for every send that returned Ok. */
  ghost predicate Conserved(s: System) {
    SubmittedCount(s.audit) + Total(s.calls, AwaitingAppend) + Total(s.calls, LostAppends) == Total(s.calls, SendsOk)
  }

  lemma LogCounts(enc: Encoding, log: seq<AuditStores.Logged>, entry: AuditEntry)
    ensures SubmittedCount(AuditStores.AppendLog(enc, log, entry)) == SubmittedCount(log) + One(entry.outcome.Submitted?)
  {
    assert AuditStores.AppendLog(enc, log, entry)[..|log|] == log;
  }

  lemma ReplyConserves(dep: Deployment, s: System, i: nat, answer: Answer, atMs: U64)
    requires Conserved(s) && i < |s.calls|
    ensures Conserved(SystemStep(dep, s, Reply(i, answer, atMs)))
  {
    var c, d := s.calls[i], Advance(dep, s.calls[i], answer);
    TotalUpdate(s.calls, i, d, AwaitingAppend);
    TotalUpdate(s.calls, i, d, LostAppends);
    TotalUpdate(s.calls, i, d, SendsOk);
    AdvanceBalances(dep, c, answer);
    if c.phase.Auditing? { LogCounts(dep.auditEncoding, s.audit, EntryFor(c.request, c.phase.entry, atMs)); }
  }

  lemma StepConserves(dep: Deployment, s: System, a: SystemAction)
    requires Conserved(s)
    ensures Conserved(SystemStep(dep, s, a))
  {
    match a
    case Open(r) =>
      TotalAppend(s.calls, Call(r, Ready, []), AwaitingAppend);
      TotalAppend(s.calls, Call(r, Ready, []), LostAppends);
      TotalAppend(s.calls, Call(r, Ready, []), SendsOk);
    case Reply(i, answer, atMs) => if i < |s.calls| { ReplyConserves(dep, s, i, answer, atMs); }
    case ConsumerRejection(entry) => LogCounts(dep.auditEncoding, s.audit, entry);
  }

  /** A step appends at most one entry to the log. */
  lemma StepAppendsOne(dep: Deployment, s: System, a: SystemAction) returns (entry: Option<AuditEntry>)
    ensures SystemStep(dep, s, a).audit
         == if entry.None? then s.audit else AuditStores.AppendLog(dep.auditEncoding, s.audit, entry.value)
  {
    entry := None;
    match a
    case Reply(i, answer, atMs) =>
      if i < |s.calls| && s.calls[i].phase.Auditing? && answer == Appended(true) {
        entry := Some(EntryFor(s.calls[i].request, s.calls[i].phase.entry, atMs));
      }
    case ConsumerRejection(e) => if e.outcome.Rejected? { entry := Some(e); }
    case Open(_) =>
  }

  lemma StepKeepsChain(dep: Deployment, s: System, a: SystemAction)
    requires AuditStores.Chained(dep.auditEncoding, s.audit)
    ensures AuditStores.Chained(dep.auditEncoding, SystemStep(dep, s, a).audit)
  {
    var entry := StepAppendsOne(dep, s, a);
    if entry.Some? { AuditStores.AppendKeepsChained(dep.auditEncoding, s.audit, entry.value); }
  }

  /**
   Audit conservation, over every interleaving of calls, retries and consumer rejections:
   submitted entries, calls about to append one, and appends the store refused add up to the sends
   that returned Ok. With a store that never refuses, the log misses only the pending ones. And the
   log so counted is the hash chain, so what a tip commits to it commits to for these entries.
   */
  lemma {:induction false} AuditConservation(dep: Deployment, actions: seq<SystemAction>)
    ensures Conserved(SystemExec(dep, actions))
    ensures AuditStores.Chained(dep.auditEncoding, SystemExec(dep, actions).audit)
  {
    if actions != [] {
      var n := |actions| - 1;
      AuditConservation(dep, actions[..n]);
      StepConserves(dep, SystemExec(dep, actions[..n]), actions[n]);
      StepKeepsChain(dep, SystemExec(dep, actions[..n]), actions[n]);
    }
  }

  // ---- What the log says ----------------------------------------------------------------------

  /** The entry is that of a returned call: its ids, and the stage and reason of its own outcome. */
  ghost predicate Tells(c: Call, entry: AuditEntry) {
    && c.phase.Returned? && EntryFits(entry.outcome, c.phase.outcome) && entry.prevHash.None?
    && entry.correlationId == c.request.correlationId && entry.identity == c.request.identity
    && entry.action == "sign_and_submit"
  }

  ghost predicate IsTold(s: System, actions: seq<SystemAction>, entry: AuditEntry) {
    (exists i :: 0 <= i < |s.calls| && Tells(s.calls[i], entry)) || ConsumerRejection(entry) in actions
  }

  lemma StaysTold(dep: Deployment, s: System, before: seq<SystemAction>, a: SystemAction, entry: AuditEntry)
    requires IsTold(s, before, entry)
    ensures IsTold(SystemStep(dep, s, a), before + [a], entry)
  {
    var t := SystemStep(dep, s, a);
    if i :| 0 <= i < |s.calls| && Tells(s.calls[i], entry) {
      assert t.calls[i] == s.calls[i];
    }
  }

  /** The entry a step appends is told by the call that it ends. */
  lemma NewEntryIsTold(dep: Deployment, actions: seq<SystemAction>, a: SystemAction, entry: AuditEntry)
    requires var s := SystemExec(dep, actions);
      SystemStep(dep, s, a).audit == AuditStores.AppendLog(dep.auditEncoding, s.audit, entry)
    ensures IsTold(SystemStep(dep, SystemExec(dep, actions), a), actions + [a], entry)
  {
    var s := SystemExec(dep, actions);
    var t := SystemStep(dep, s, a);
    assert t.audit[|s.audit|].entry == entry;
    if a.Reply? {
      var answers := InterleavedCallsAreDrives(dep, actions, a.call);
      DriveOk(dep, s.calls[a.call].request, answers);
      assert Tells(t.calls[a.call], entry);
    } else {
      assert a == ConsumerRejection(entry);
    }
  }

  /**
   In every interleaving each stored entry is one that a consumer rejection brought, or carries the
   correlation id, the identity, the action and the exact outcome of a call that returned.
   */
  lemma {:induction false} EntriesTellTheirCalls(dep: Deployment, actions: seq<SystemAction>, k: nat)
    requires k < |SystemExec(dep, actions).audit|
    ensures IsTold(SystemExec(dep, actions), actions, SystemExec(dep, actions).audit[k].entry)
  {
    var n := |actions| - 1;
    var s, a := SystemExec(dep, actions[..n]), actions[n];
    assert actions == actions[..n] + [a];
    var entry := StepAppendsOne(dep, s, a);
    if k < |s.audit| {
      EntriesTellTheirCalls(dep, actions[..n], k);
      StaysTold(dep, s, actions[..n], a, s.audit[k].entry);
    } else {
      NewEntryIsTold(dep, actions[..n], a, entry.value);
    }
  }

  /**
   A call makes at most one audit append: exactly one if it returned after a policy, key or
   simulation rejection or after a send, none if it failed to decode, to get a blockhash or to get
   a Vault signature.
   */
  lemma {:induction false} AtMostOneAuditEntry(dep: Deployment, r: Request, answers: seq<Answer>)
    ensures AuditedOnce(Drive(dep, r, answers))
  {
    if answers != [] {
      AtMostOneAuditEntry(dep, r, answers[..|answers| - 1]);
      AdvanceBalances(dep, Drive(dep, r, answers[..|answers| - 1]), answers[|answers| - 1]);
    }
  }
}
