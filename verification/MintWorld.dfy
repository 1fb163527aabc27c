/**
 Generation mints end to end: the consumer machine, the transactions it hands to the cluster, and
 the on-chain program, which keeps a record per (meter, window) pair and ignores a repeat. A
 transaction may land late, or although its send reported an error, or after the consumer that sent
 it is gone.
 */
module MintWorld {
  import opened Common
  import opened Deployment
  import opened Dedup
  import opened Consumer
  import opened ConsumerExclusion
  import opened ConsumerHistory
  import opened SigningService

  const CONFIRM_ATTEMPTS := 24

  /** What one mint transaction does: energy for a window, to a wallet. */
  datatype Mint = Mint(window: Window, recipient: string, energyKwh: real)

  function MintOf(e: Envelope): Mint
    requires e.body.MintEnergy?
  {
    Mint(e.body.window, e.body.recipientWallet, e.body.energyKwh)
  }

  /** A mint run whose send was accepted, and the polls it has seen. */
  datatype Flight = Flight(signature: Signature, seen: seq<Poll>)

  datatype Landing = Landing(signature: Signature, mint: Mint)

  datatype Mints = Mints(
    bridge: State,                   // the living consumer
    flights: map<nat, Flight>,       // by run index of the living consumer
    sent: map<Signature, Mint>,      // every transaction that may reach the chain
    landed: map<Signature, bool>,    // executed; true if without error
    executed: seq<Landing>,          // landed without error, in order
    recorded: set<Window>,           // the program's mint records
    issued: seq<Mint>)               // mints that moved tokens, in order

  datatype MintAction =
    | Bridge(action: Action)
    | SendMint(run: nat, signature: Signature, accepted: bool)
    | FailMint(run: nat, error: string)
    | Land(signature: Signature, ok: bool)
    | PollMint(run: nat, poll: Poll)

  predicate IsMinting(s: State, i: nat) {
    i < |s.runs| && s.runs[i].phase.Working? && s.runs[i].envelope.body.MintEnergy?
  }

  function MintAt(s: State, i: nat): Mint
    requires IsMinting(s, i)
  {
    MintOf(s.runs[i].envelope)
  }

  /** A mint run's one attempt ends by `FailMint`, a refused `SendMint` or the polls, not from outside. */
  function BridgeStep(dep: Deployment, m: Mints, a: Action): Mints {
    match a
    case Reconnect => m.(bridge := Step(dep, m.bridge, a), flights := map[])
    case AttemptDone(i, _) => if IsMinting(m.bridge, i) then m else m.(bridge := Step(dep, m.bridge, a))
    case _ => m.(bridge := Step(dep, m.bridge, a))
  }

  function EndMint(m: Mints, i: nat, result: Result<(Signature, nat), string>): Mints {
    m.(bridge := AttemptStep(m.bridge, i, result), flights := m.flights - {i})
  }

  /** A status is reported only for a transaction that landed that way. */
  predicate TruthfulPoll(m: Mints, signature: Signature, poll: Poll) {
    poll.Status? ==> signature in m.landed && m.landed[signature] == !poll.errored
  }

  /** The attempt's result for a resolved confirmation. */
  function Confirmation(signature: Signature, outcome: ConfirmOutcome): Result<(Signature, nat), string> {
    match outcome
    case Confirmed(slot) => Ok((signature, slot))
    case Errored => Err("landed with an on-chain error; not confirmed")
    case Pending => Err("unconfirmed within window; outbox will retry")
  }

  function PollStep(m: Mints, i: nat, poll: Poll): Mints {
    if !IsMinting(m.bridge, i) || i !in m.flights || !TruthfulPoll(m, m.flights[i].signature, poll) then m
    else
      var Flight(signature, seen) := m.flights[i];
      match Resolve(seen + [poll], CONFIRM_ATTEMPTS)
      case None => m.(flights := m.flights[i := Flight(signature, seen + [poll])])
      case Some(outcome) => EndMint(m, i, Confirmation(signature, outcome))
  }

  /** The program: a window that has its record is left alone, any other gets one and is minted. */
  function Execute(m: Mints, landing: Landing): Mints {
    var ran := m.(executed := m.executed + [landing]);
    if landing.mint.window in m.recorded then ran
    else ran.(recorded := m.recorded + {landing.mint.window}, issued := m.issued + [landing.mint])
  }

  function LandStep(m: Mints, signature: Signature, ok: bool): Mints {
    if signature !in m.sent || signature in m.landed then m
    else
      var m' := m.(landed := m.landed[signature := ok]);
      if ok then Execute(m', Landing(signature, m.sent[signature])) else m'
  }

  /** A signature is of one transaction, so it never stands for two different mints. */
  predicate MaySend(m: Mints, i: nat, signature: Signature) {
    IsMinting(m.bridge, i) && i !in m.flights && (signature in m.sent ==> m.sent[signature] == MintAt(m.bridge, i))
  }

  function SendStep(m: Mints, i: nat, signature: Signature, accepted: bool): Mints
    requires MaySend(m, i, signature)
  {
    var m' := m.(sent := m.sent[signature := MintAt(m.bridge, i)]);
    if accepted then m'.(flights := m.flights[i := Flight(signature, [])])
    else EndMint(m', i, Err("submission failed"))
  }

  function MintStep(dep: Deployment, m: Mints, a: MintAction): Mints {
    match a
    case Bridge(action) => BridgeStep(dep, m, action)
    case SendMint(i, signature, accepted) => if MaySend(m, i, signature) then SendStep(m, i, signature, accepted) else m
    case FailMint(i, error) =>
      if !IsMinting(m.bridge, i) || i in m.flights then m else EndMint(m, i, Err(error))
    case Land(signature, ok) => LandStep(m, signature, ok)
    case PollMint(i, poll) => PollStep(m, i, poll)
  }

  function Genesis(clockMs: nat): Mints {
    Mints(Fresh(clockMs), map[], map[], map[], [], {}, [])
  }

  function MintExec(dep: Deployment, m: Mints, actions: seq<MintAction>): Mints {
    if actions == [] then m
    else MintStep(dep, MintExec(dep, m, actions[..|actions| - 1]), actions[|actions| - 1])
  }

  // ---- The chain ------------------------------------------------------------------------------

  /** Nothing landed for the window before landing `k`. */
  ghost predicate IsFirstLanding(executed: seq<Landing>, k: int) {
    0 <= k < |executed| && forall j :: 0 <= j < k ==> executed[j].mint.window != executed[k].mint.window
  }

  ghost predicate FromFirstLanding(executed: seq<Landing>, mint: Mint) {
    exists k :: IsFirstLanding(executed, k) && executed[k].mint == mint
  }

  ghost predicate LandingsOk(m: Mints) {
    && (forall k :: 0 <= k < |m.executed| ==>
          && m.executed[k].signature in m.landed && m.landed[m.executed[k].signature]
          && m.executed[k].signature in m.sent && m.sent[m.executed[k].signature] == m.executed[k].mint)
    && (forall sig :: sig in m.landed && m.landed[sig] ==> sig in m.sent && Landing(sig, m.sent[sig]) in m.executed)
  }

  ghost predicate WindowIssued(issued: seq<Mint>, w: Window) {
    exists x :: x in issued && x.window == w
  }

  ghost predicate ProgramOk(m: Mints) {
    && (forall i, j :: 0 <= i < j < |m.issued| ==> m.issued[i].window != m.issued[j].window)
    && (forall x :: x in m.issued ==> x.window in m.recorded && FromFirstLanding(m.executed, x))
    && (forall w :: w in m.recorded ==> WindowIssued(m.issued, w))
    && (forall k :: 0 <= k < |m.executed| ==> m.executed[k].mint.window in m.recorded)
  }

  lemma FirstLandingStays(executed: seq<Landing>, landing: Landing, mint: Mint)
    requires FromFirstLanding(executed, mint)
    ensures FromFirstLanding(executed + [landing], mint)
  {
    var k :| IsFirstLanding(executed, k) && executed[k].mint == mint;
    assert IsFirstLanding(executed + [landing], k);
  }

  lemma RepeatOk(m: Mints, landing: Landing)
    requires ProgramOk(m) && landing.mint.window in m.recorded
    ensures ProgramOk(Execute(m, landing))
  {
    forall x | x in m.issued ensures FromFirstLanding(m.executed + [landing], x) {
      FirstLandingStays(m.executed, landing, x);
    }
  }

  lemma FirstMintOk(m: Mints, landing: Landing)
    requires ProgramOk(m) && landing.mint.window !in m.recorded
    ensures ProgramOk(Execute(m, landing))
  {
    var t := Execute(m, landing);
    forall x | x in t.issued ensures FromFirstLanding(t.executed, x) {
      if x in m.issued { FirstLandingStays(m.executed, landing, x); } else { assert IsFirstLanding(t.executed, |m.executed|); }
    }
    forall w | w in t.recorded ensures WindowIssued(t.issued, w) {
      if w in m.recorded {
        var x :| x in m.issued && x.window == w;
        assert x in t.issued;
      } else {
        assert landing.mint in t.issued;
      }
    }
  }

  lemma LandKeepsProgram(m: Mints, signature: Signature, ok: bool)
    requires ProgramOk(m)
    ensures ProgramOk(LandStep(m, signature, ok))
  {
    if signature in m.sent && signature !in m.landed && ok {
      var m', landing := m.(landed := m.landed[signature := ok]), Landing(signature, m.sent[signature]);
      if landing.mint.window in m.recorded { RepeatOk(m', landing); } else { FirstMintOk(m', landing); }
    }
  }

  lemma LandKeepsLandings(m: Mints, signature: Signature, ok: bool)
    requires LandingsOk(m)
    ensures LandingsOk(LandStep(m, signature, ok))
  {
    if signature in m.sent && signature !in m.landed && ok {
      var t, landing := LandStep(m, signature, ok), Landing(signature, m.sent[signature]);
      assert t.executed == m.executed + [landing];
      assert forall l :: l in m.executed ==> l in t.executed;
      assert landing in t.executed;
    }
  }

  // ---- Flights and runs -----------------------------------------------------------------------

  /** A flight belongs to a working mint run, carries that run's mint, and is still undecided. */
  ghost predicate FlightsOk(m: Mints) {
    forall i :: i in m.flights ==>
      && IsMinting(m.bridge, i) && Resolve(m.flights[i].seen, CONFIRM_ATTEMPTS).None?
      && m.flights[i].signature in m.sent && m.sent[m.flights[i].signature] == MintAt(m.bridge, i)
  }

  ghost predicate LandedFor(m: Mints, signature: Signature, mint: Mint) {
    && signature in m.landed && m.landed[signature]
    && signature in m.sent && m.sent[signature] == mint
  }

  /** A successful mint run's signature landed without error, for that run's own mint. */
  ghost predicate RunsOk(m: Mints) {
    forall i :: 0 <= i < |m.bridge.runs| && m.bridge.runs[i].envelope.body.MintEnergy? && m.bridge.runs[i].phase.Succeeded? ==>
      LandedFor(m, m.bridge.runs[i].phase.signature, MintOf(m.bridge.runs[i].envelope))
  }

  ghost predicate MintsOk(dep: Deployment, m: Mints) {
    && ProgramOk(m) && LandingsOk(m) && FlightsOk(m) && RunsOk(m)
    && WellFormed(dep, m.bridge) && HistoryOk(m.bridge)
  }

  /** `t` has the mint runs of `s`, apart from run `except`, and new ones that are still working. */
  ghost predicate SameMintRuns(s: State, t: State, except: set<int>) {
    && |s.runs| <= |t.runs|
    && (forall i :: 0 <= i < |s.runs| ==> t.runs[i].envelope == s.runs[i].envelope)
    && (forall i :: 0 <= i < |s.runs| && i !in except && s.runs[i].envelope.body.MintEnergy? ==>
          t.runs[i].phase == s.runs[i].phase)
    && (forall i :: |s.runs| <= i < |t.runs| ==> t.runs[i].phase.Working?)
  }

  lemma StepKeepsMintRuns(dep: Deployment, s: State, a: Action)
    requires a != Reconnect && (a.AttemptDone? ==> !IsMinting(s, a.run))
    ensures SameMintRuns(s, Step(dep, s, a), {})
  {
  }

  lemma AttemptTouchesOneRun(s: State, i: nat, result: Result<(Signature, nat), string>)
    requires IsMinting(s, i)
    ensures var t := AttemptStep(s, i, result);
      && SameMintRuns(s, t, {i}) && |t.runs| == |s.runs|
      && (result.Err? ==> t.runs[i].phase.GaveUp?)
      && (result.Ok? ==> t.runs[i].phase == Succeeded(result.value.0, result.value.1, s.clockMs))
  {
  }

  lemma CarriedOver(dep: Deployment, m: Mints, t: State)
    requires MintsOk(dep, m) && WellFormed(dep, t) && HistoryOk(t) && SameMintRuns(m.bridge, t, {})
    ensures MintsOk(dep, m.(bridge := t))
  {
  }

  lemma EndMintOk(dep: Deployment, m: Mints, i: nat, result: Result<(Signature, nat), string>)
    requires MintsOk(dep, m) && IsMinting(m.bridge, i)
    requires result.Ok? ==> LandedFor(m, result.value.0, MintAt(m.bridge, i))
    ensures MintsOk(dep, EndMint(m, i, result))
  {
    var a := AttemptDone(i, result);
    WellFormedStep(dep, m.bridge, a);
    HistoryStep(dep, m.bridge, a);
    AttemptTouchesOneRun(m.bridge, i, result);
    MintEnded(dep, m, i, AttemptStep(m.bridge, i, result));
  }

  lemma MintEnded(dep: Deployment, m: Mints, i: nat, t: State)
    requires MintsOk(dep, m) && IsMinting(m.bridge, i)
    requires WellFormed(dep, t) && HistoryOk(t) && SameMintRuns(m.bridge, t, {i}) && |t.runs| == |m.bridge.runs|
    requires t.runs[i].phase.GaveUp?
          || (t.runs[i].phase.Succeeded? && LandedFor(m, t.runs[i].phase.signature, MintAt(m.bridge, i)))
    ensures MintsOk(dep, m.(bridge := t, flights := m.flights - {i}))
  {
  }

  lemma LandKeepsRuns(m: Mints, signature: Signature, ok: bool)
    requires FlightsOk(m) && RunsOk(m)
    ensures FlightsOk(LandStep(m, signature, ok)) && RunsOk(LandStep(m, signature, ok))
  {
    var t := LandStep(m, signature, ok);
    assert t.bridge == m.bridge && t.flights == m.flights && t.sent == m.sent;
    assert forall sig :: sig in m.landed ==> sig in t.landed && t.landed[sig] == m.landed[sig];
  }

  lemma LandOk(dep: Deployment, m: Mints, signature: Signature, ok: bool)
    requires MintsOk(dep, m)
    ensures MintsOk(dep, LandStep(m, signature, ok))
  {
    LandKeepsProgram(m, signature, ok);
    LandKeepsLandings(m, signature, ok);
    LandKeepsRuns(m, signature, ok);
  }

  lemma BridgeOk(dep: Deployment, m: Mints, a: Action)
    requires MintsOk(dep, m)
    ensures MintsOk(dep, BridgeStep(dep, m, a))
  {
    if !(a.AttemptDone? && IsMinting(m.bridge, a.run)) {
      WellFormedStep(dep, m.bridge, a);
      HistoryStep(dep, m.bridge, a);
      if a != Reconnect {
        StepKeepsMintRuns(dep, m.bridge, a);
        CarriedOver(dep, m, Step(dep, m.bridge, a));
      }
    }
  }

  /** Handing a run's transaction over adds a signature for that run's mint. */
  lemma SentOk(dep: Deployment, m: Mints, i: nat, signature: Signature)
    requires MintsOk(dep, m) && MaySend(m, i, signature)
    ensures MintsOk(dep, m.(sent := m.sent[signature := MintAt(m.bridge, i)]))
  {
  }

  lemma TakesOff(m: Mints, i: nat, signature: Signature)
    requires FlightsOk(m) && IsMinting(m.bridge, i) && signature in m.sent && m.sent[signature] == MintAt(m.bridge, i)
    ensures FlightsOk(m.(flights := m.flights[i := Flight(signature, [])]))
  {
    assert Resolve([], CONFIRM_ATTEMPTS).None?;
  }

  lemma SendOk(dep: Deployment, m: Mints, i: nat, signature: Signature, accepted: bool)
    requires MintsOk(dep, m) && MaySend(m, i, signature)
    ensures MintsOk(dep, SendStep(m, i, signature, accepted))
  {
    SentOk(dep, m, i, signature);
    var m' := m.(sent := m.sent[signature := MintAt(m.bridge, i)]);
    if accepted {
      TakesOff(m', i, signature);
    } else {
      EndMintOk(dep, m', i, Err("submission failed"));
    }
  }

  /** A confirming poll is of a landed transaction for the run's own mint. */
  lemma ConfirmedHasLanded(m: Mints, i: nat, poll: Poll)
    requires FlightsOk(m) && i in m.flights && TruthfulPoll(m, m.flights[i].signature, poll)
    ensures var outcome := Resolve(m.flights[i].seen + [poll], CONFIRM_ATTEMPTS);
      outcome.Some? && outcome.value.Confirmed? ==> LandedFor(m, m.flights[i].signature, MintAt(m.bridge, i))
  {
    ResolveAppend(m.flights[i].seen, CONFIRM_ATTEMPTS, poll);
  }

  /** An undecided poll is one more poll in flight. */
  lemma StaysInFlight(m: Mints, i: nat, poll: Poll)
    requires FlightsOk(m) && i in m.flights && Resolve(m.flights[i].seen + [poll], CONFIRM_ATTEMPTS).None?
    ensures FlightsOk(m.(flights := m.flights[i := Flight(m.flights[i].signature, m.flights[i].seen + [poll])]))
  {
  }

  lemma PollOk(dep: Deployment, m: Mints, i: nat, poll: Poll)
    requires MintsOk(dep, m)
    ensures MintsOk(dep, PollStep(m, i, poll))
  {
    if IsMinting(m.bridge, i) && i in m.flights && TruthfulPoll(m, m.flights[i].signature, poll) {
      var outcome := Resolve(m.flights[i].seen + [poll], CONFIRM_ATTEMPTS);
      if outcome.Some? {
        ConfirmedHasLanded(m, i, poll);
        EndMintOk(dep, m, i, Confirmation(m.flights[i].signature, outcome.value));
      } else {
        StaysInFlight(m, i, poll);
      }
    }
  }

  lemma MintStepOk(dep: Deployment, m: Mints, a: MintAction)
    requires MintsOk(dep, m)
    ensures MintsOk(dep, MintStep(dep, m, a))
  {
    match a
    case Bridge(action) => BridgeOk(dep, m, action);
    case SendMint(i, signature, accepted) => if MaySend(m, i, signature) { SendOk(dep, m, i, signature, accepted); }
    case FailMint(i, error) => if IsMinting(m.bridge, i) && i !in m.flights { EndMintOk(dep, m, i, Err(error)); }
    case Land(signature, ok) => LandOk(dep, m, signature, ok);
    case PollMint(i, poll) => PollOk(dep, m, i, poll);
  }

  lemma {:induction false} MintExecOk(dep: Deployment, clockMs: nat, actions: seq<MintAction>)
    ensures MintsOk(dep, MintExec(dep, Genesis(clockMs), actions))
  {
    if actions != [] {
      MintExecOk(dep, clockMs, actions[..|actions| - 1]);
      MintStepOk(dep, MintExec(dep, Genesis(clockMs), actions[..|actions| - 1]), actions[|actions| - 1]);
    }
  }

  // ---- What is issued -------------------------------------------------------------------------

  /** Two first landings of one window are one landing. */
  lemma FirstLandingIsIssued(m: Mints, k: int)
    requires ProgramOk(m) && IsFirstLanding(m.executed, k)
    ensures m.executed[k].mint in m.issued
  {
    var w := m.executed[k].mint.window;
    var x :| x in m.issued && x.window == w;
    var j :| IsFirstLanding(m.executed, j) && m.executed[j].mint == x;
    assert j == k;
  }

  ghost predicate LandedWithoutError(m: Mints, w: Window) {
    exists sig :: sig in m.landed && m.landed[sig] && sig in m.sent && m.sent[sig].window == w
  }

  /**
   Over any run with re-sends, expired claims, sends that failed but landed, late landings and
   reconnects that empty both maps: a window is issued if and only if a transaction sent for it
   landed without error, it is issued once, and what is issued for it (recipient and energy
   included) is what the first of its transactions to land carried.
   */
  lemma IssuedByFirstLanding(dep: Deployment, clockMs: nat, actions: seq<MintAction>)
    ensures var m := MintExec(dep, Genesis(clockMs), actions);
      && (forall i, j :: 0 <= i < j < |m.issued| ==> m.issued[i].window != m.issued[j].window)
      && (forall w :: WindowIssued(m.issued, w) <==> LandedWithoutError(m, w))
      && (forall x :: x in m.issued <==> FromFirstLanding(m.executed, x))
  {
    MintExecOk(dep, clockMs, actions);
    var m := MintExec(dep, Genesis(clockMs), actions);
    forall w ensures WindowIssued(m.issued, w) <==> LandedWithoutError(m, w) {
      if WindowIssued(m.issued, w) {
        var x :| x in m.issued && x.window == w;
        var k :| IsFirstLanding(m.executed, k) && m.executed[k].mint == x;
        assert LandedWithoutError(m, w) by { assert m.sent[m.executed[k].signature].window == w; }
      }
      if LandedWithoutError(m, w) {
        var sig :| sig in m.landed && m.landed[sig] && sig in m.sent && m.sent[sig].window == w;
        var k :| 0 <= k < |m.executed| && m.executed[k] == Landing(sig, m.sent[sig]);
        assert m.executed[k].mint.window in m.recorded;
      }
    }
    forall x ensures x in m.issued <==> FromFirstLanding(m.executed, x) {
      if FromFirstLanding(m.executed, x) {
        var k :| IsFirstLanding(m.executed, k) && m.executed[k].mint == x;
        FirstLandingIsIssued(m, k);
      }
    }
  }

  // ---- Confirmation ---------------------------------------------------------------------------

  /** Ending run `k` leaves every other mint run as it was. */
  lemma OnlyEndedRunMoves(m: Mints, k: nat, result: Result<(Signature, nat), string>, i: nat)
    requires IsMinting(m.bridge, k) && i < |m.bridge.runs| && m.bridge.runs[i].envelope.body.MintEnergy? && i != k
    ensures var t := EndMint(m, k, result);
      && i < |t.bridge.runs| && t.bridge.runs[i] == m.bridge.runs[i]
      && (i in t.flights <==> i in m.flights) && (i in m.flights ==> t.flights[i] == m.flights[i])
  {
  }

  /** Run `i`, its mint and its polls are the same in both worlds. */
  ghost predicate SameFlight(m: Mints, t: Mints, i: nat)
    requires i < |m.bridge.runs|
  {
    && i < |t.bridge.runs| && t.bridge.runs[i].envelope == m.bridge.runs[i].envelope
    && t.bridge.runs[i].phase == m.bridge.runs[i].phase
    && (i in t.flights <==> i in m.flights) && (i in m.flights ==> t.flights[i] == m.flights[i])
  }

  lemma OtherPollLeavesFlight(m: Mints, k: nat, poll: Poll, i: nat)
    requires i < |m.bridge.runs| && m.bridge.runs[i].envelope.body.MintEnergy? && k != i
    ensures SameFlight(m, PollStep(m, k, poll), i)
  {
    if IsMinting(m.bridge, k) && k in m.flights {
      var outcome := Resolve(m.flights[k].seen + [poll], CONFIRM_ATTEMPTS);
      if outcome.Some? { OnlyEndedRunMoves(m, k, Confirmation(m.flights[k].signature, outcome.value), i); }
    }
  }

  lemma OtherSendLeavesFlight(m: Mints, k: nat, signature: Signature, accepted: bool, i: nat)
    requires i < |m.bridge.runs| && m.bridge.runs[i].envelope.body.MintEnergy? && k != i && MaySend(m, k, signature)
    ensures SameFlight(m, SendStep(m, k, signature, accepted), i)
  {
    OnlyEndedRunMoves(m.(sent := m.sent[signature := MintAt(m.bridge, k)]), k, Err("submission failed"), i);
  }

  lemma BridgeLeavesFlight(dep: Deployment, m: Mints, a: Action, i: nat)
    requires i < |m.bridge.runs| && m.bridge.runs[i].envelope.body.MintEnergy? && a != Reconnect
    ensures SameFlight(m, BridgeStep(dep, m, a), i)
  {
    if !(a.AttemptDone? && IsMinting(m.bridge, a.run)) { StepKeepsMintRuns(dep, m.bridge, a); }
  }

  /** Nothing but its own polls moves a run that is in flight or has ended. */
  lemma OthersLeaveFlight(dep: Deployment, m: Mints, a: MintAction, i: nat)
    requires i < |m.bridge.runs| && m.bridge.runs[i].envelope.body.MintEnergy? && a != Bridge(Reconnect)
    requires i in m.flights || !m.bridge.runs[i].phase.Working?
    requires a.PollMint? ==> a.run != i
    ensures SameFlight(m, MintStep(dep, m, a), i)
  {
    match a
    case Bridge(action) => BridgeLeavesFlight(dep, m, action, i);
    case SendMint(k, signature, accepted) =>
      if MaySend(m, k, signature) { OtherSendLeavesFlight(m, k, signature, accepted, i); }
    case FailMint(k, error) =>
      if IsMinting(m.bridge, k) && k !in m.flights { OnlyEndedRunMoves(m, k, Err(error), i); }
    case Land(_, _) =>
    case PollMint(k, poll) => OtherPollLeavesFlight(m, k, poll, i);
  }

  /** Where polling for `signature` stands after these polls: in flight, confirmed, or given up. */
  ghost predicate AtPolls(m: Mints, i: nat, signature: Signature, polls: seq<Poll>) {
    && i < |m.bridge.runs| && m.bridge.runs[i].envelope.body.MintEnergy?
    && match Resolve(polls, 24)
       case None => IsMinting(m.bridge, i) && i in m.flights && m.flights[i] == Flight(signature, polls)
       case Some(Confirmed(slot)) =>
         && m.bridge.runs[i].phase.Succeeded? && m.bridge.runs[i].phase.signature == signature
         && m.bridge.runs[i].phase.slot == slot
       case Some(_) => m.bridge.runs[i].phase.GaveUp?
  }

  lemma OwnPollMoves(m: Mints, i: nat, signature: Signature, polls: seq<Poll>, poll: Poll)
    requires AtPolls(m, i, signature, polls) && TruthfulPoll(m, signature, poll)
    ensures AtPolls(PollStep(m, i, poll), i, signature, polls + [poll])
  {
    ResolveAppend(polls, CONFIRM_ATTEMPTS, poll);
    var outcome := Resolve(polls + [poll], CONFIRM_ATTEMPTS);
    if Resolve(polls, CONFIRM_ATTEMPTS).None? && outcome.Some? {
      AttemptTouchesOneRun(m.bridge, i, Confirmation(signature, outcome.value));
    }
  }

  /** The polls of run `i`, in order. */
  function PollsOf(actions: seq<MintAction>, i: nat): seq<Poll> {
    if actions == [] then []
    else
      var before, a := PollsOf(actions[..|actions| - 1], i), actions[|actions| - 1];
      if a.PollMint? && a.run == i then before + [a.poll] else before
  }

  /** Every poll of run `i` is answered truthfully at its time. */
  ghost predicate TruthfulPolls(dep: Deployment, m: Mints, actions: seq<MintAction>, i: nat, signature: Signature) {
    forall n: nat :: n < |actions| && actions[n].PollMint? && actions[n].run == i ==>
      TruthfulPoll(MintExec(dep, m, actions[..n]), signature, actions[n].poll)
  }

  /**
   Whatever else the consumer, other mints and the chain do between two polls: a mint run whose
   send was accepted is where the bounded polling loop is after the same polls. It succeeds, with
   the sent signature and the slot shown, if and only if the loop confirms; it fails if and only if
   the loop sees an error first or runs out.
   */
  lemma {:induction false} PollingEndsTheRun(dep: Deployment, m: Mints, i: nat, signature: Signature, actions: seq<MintAction>)
    requires AtPolls(m, i, signature, []) && Bridge(Reconnect) !in actions
    requires TruthfulPolls(dep, m, actions, i, signature)
    ensures AtPolls(MintExec(dep, m, actions), i, signature, PollsOf(actions, i))
  {
    if actions != [] {
      var n := |actions| - 1;
      var before, a := actions[..n], actions[n];
      assert forall k: nat :: k < n ==> actions[..n][..k] == actions[..k];
      PollingEndsTheRun(dep, m, i, signature, before);
      assert a in actions;
      var s := MintExec(dep, m, before);
      if a.PollMint? && a.run == i {
        OwnPollMoves(s, i, signature, PollsOf(before, i), a.poll);
      } else {
        OthersLeaveFlight(dep, s, a, i);
      }
    }
  }

  /**
   In every reachable world a mint run turns successful only by a poll that shows the signature it
   sent with a slot and no error, within the bounded number of attempts, and after polls none of
   which showed an error or a slot.
   */
  lemma MintSucceedsOnlyByPoll(dep: Deployment, clockMs: nat, actions: seq<MintAction>, a: MintAction, i: nat)
    requires IsMinting(MintExec(dep, Genesis(clockMs), actions).bridge, i) && a != Bridge(Reconnect)
    requires i < |MintStep(dep, MintExec(dep, Genesis(clockMs), actions), a).bridge.runs|
    requires MintStep(dep, MintExec(dep, Genesis(clockMs), actions), a).bridge.runs[i].phase.Succeeded?
    ensures var m := MintExec(dep, Genesis(clockMs), actions);
            var phase := MintStep(dep, m, a).bridge.runs[i].phase;
      && i in m.flights && phase.signature == m.flights[i].signature
      && |m.flights[i].seen| < 24 && (forall p :: p in m.flights[i].seen ==> Undecided(p))
      && a == PollMint(i, Status(false, Some(phase.slot)))
      && LandedFor(m, phase.signature, MintAt(m.bridge, i))
  {
    MintExecOk(dep, clockMs, actions);
    SuccessIsByPoll(dep, MintExec(dep, Genesis(clockMs), actions), a, i);
  }

  lemma SuccessIsByPoll(dep: Deployment, m: Mints, a: MintAction, i: nat)
    requires FlightsOk(m) && IsMinting(m.bridge, i) && a != Bridge(Reconnect)
    requires i < |MintStep(dep, m, a).bridge.runs| && MintStep(dep, m, a).bridge.runs[i].phase.Succeeded?
    ensures a.PollMint? && a.run == i && i in m.flights && TruthfulPoll(m, m.flights[i].signature, a.poll)
    ensures var phase := MintStep(dep, m, a).bridge.runs[i].phase;
      && phase.signature == m.flights[i].signature && a.poll == Status(false, Some(phase.slot))
      && |m.flights[i].seen| < CONFIRM_ATTEMPTS && (forall p :: p in m.flights[i].seen ==> Undecided(p))
      && LandedFor(m, phase.signature, MintAt(m.bridge, i))
  {
    if i !in m.flights {
      UnsentDoesNotSucceed(dep, m, a, i);
    } else if a.PollMint? && a.run == i {
      OwnPollSucceeds(m, i, a.poll);
    } else {
      OthersLeaveFlight(dep, m, a, i);
    }
  }

  lemma OwnPollSucceeds(m: Mints, i: nat, poll: Poll)
    requires FlightsOk(m) && i in m.flights
    requires PollStep(m, i, poll).bridge.runs[i].phase.Succeeded?
    ensures var phase := PollStep(m, i, poll).bridge.runs[i].phase;
      && TruthfulPoll(m, m.flights[i].signature, poll)
      && phase.signature == m.flights[i].signature && poll == Status(false, Some(phase.slot))
      && |m.flights[i].seen| < CONFIRM_ATTEMPTS && (forall p :: p in m.flights[i].seen ==> Undecided(p))
      && LandedFor(m, phase.signature, MintAt(m.bridge, i))
  {
    var Flight(signature, seen) := m.flights[i];
    if TruthfulPoll(m, signature, poll) {
      ResolveAppend(seen, CONFIRM_ATTEMPTS, poll);
      ConfirmedHasLanded(m, i, poll);
      OwnPollMoves(m, i, signature, seen, poll);
    }
  }

  /** A run with nothing in flight can only stay, be sent or fail. */
  lemma UnsentDoesNotSucceed(dep: Deployment, m: Mints, a: MintAction, i: nat)
    requires IsMinting(m.bridge, i) && i !in m.flights && a != Bridge(Reconnect)
    ensures i < |MintStep(dep, m, a).bridge.runs| && !MintStep(dep, m, a).bridge.runs[i].phase.Succeeded?
  {
    match a
    case Bridge(action) => BridgeLeavesFlight(dep, m, action, i);
    case SendMint(k, signature, accepted) =>
      if MaySend(m, k, signature) { AttemptTouchesOneRun(m.bridge, k, Err("submission failed")); }
    case FailMint(k, error) => if IsMinting(m.bridge, k) { AttemptTouchesOneRun(m.bridge, k, Err(error)); }
    case Land(_, _) =>
    case PollMint(k, poll) => if k != i { OtherPollLeavesFlight(m, k, poll, i); }
  }
}
