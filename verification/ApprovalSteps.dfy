/**
 What every step of a dispatch decides and changes, and that nothing is performed that was not vetted.
 */
module ApprovalSteps {
  import opened Options
  import opened Ledgers
  import opened ApprovalGate
  import opened ApprovalRun

  /** The actions a person has to approve, and those that repair something. */
  predicate Gated(action: Action) {
    action == RebindGateway || action == ReenableSchedule || action == RerunPipeline
  }

  predicate Repairs(action: Action) {
    Gated(action) || action == RefreshDataset
  }

  predicate InTime(w: World) {
    w.mono - w.ledger.startedAt - w.ledger.humanWait <= w.ledger.policy.timeout
  }

  predicate HasBudget(w: World) {
    w.ledger.writes < w.ledger.policy.maxWrites
  }

  /** `v` is `w` at rest, with one more entry on the list of blocked attempts or none. */
  ghost predicate Blocked(w: World, v: World, action: Action) {
    v == w.(phase := Idle, ledger := w.ledger.(blocked := w.ledger.blocked + [action]))
  }

  // ---- one step ----------------------------------------------------------------------------------

  /** A call goes on to its checks exactly within the deadline, the allowlist and the tool budget. One that is
      not allowed is blocked; anything else ends the run. Nothing is charged but the attempt and the call. */
  lemma BeginDecides(w: World, call: Call)
    requires w.phase == Idle
    ensures var v, policy := Next(w, Begin(call)), w.ledger.policy;
      var asked := w.ledger.(attempted := w.ledger.attempted + 1);
      if !InTime(w) then v == w.(ledger := asked, phase := Over)
      else if call.action !in policy.allowed
      then v == w.(ledger := asked.(blocked := w.ledger.blocked + [call.action]))
      else if w.ledger.tools >= policy.maxTools then v == w.(ledger := asked, phase := Over)
      else v == w.(ledger := asked.(tools := w.ledger.tools + 1), phase := Checking(call))
  {
  }

  /** A failed first check brings the run to rest: nobody is asked, nothing is charged or consumed, and the channel
      stays as it is. Only a repair without budget is noted as blocked. */
  lemma FailedCheckChangesNothing(w: World, stored: bool)
    requires w.phase.Checking?
    ensures var v := Next(w, Check(false, stored));
      if Repairs(w.phase.call.action) && !HasBudget(w) then Blocked(w, v, w.phase.call.action)
      else v == w.(phase := Idle)
  {
  }

  /** Without budget a repair is blocked at its first check, whatever its preconditions say. */
  lemma SpentBudgetBlocks(w: World, passes: bool, stored: bool)
    requires w.phase.Checking? && Repairs(w.phase.call.action) && !HasBudget(w)
    ensures Blocked(w, Next(w, Check(passes, stored)), w.phase.call.action)
  {
  }

  /** A passed first check carries out what only reads, sends a refresh to its second check, and asks a person
      about anything gated. */
  lemma PassedCheckLeadsOn(w: World, stored: bool)
    requires w.phase.Checking? && (Repairs(w.phase.call.action) ==> HasBudget(w))
    ensures var v, call := Next(w, Check(true, stored)), w.phase.call;
      && (!Repairs(call.action) ==> v == w.(phase := Executing(Performance(call, None))))
      && (call.action == RefreshDataset ==> v == w.(phase := Rechecking(call)))
      && (Gated(call.action) ==> v.phase.Waiting? || v.phase == Idle)
  {
  }

  /** A person is asked about exactly this call, under the run's own request, exactly when there is a gate and the
      channel has room for the request or still holds it unanswered. Otherwise the action is denied. */
  lemma GatedCallAsks(w: World, stored: bool)
    requires w.phase.Checking? && Gated(w.phase.call.action) && HasBudget(w)
    ensures var v, call := Next(w, Check(true, stored)), w.phase.call;
      var id := RequestId(w.runRequest, call.action);
      var request := Request(id, Fingerprint(call.action, call.arguments), w.utc + w.approvalTimeout);
      var asks := w.hasGate && if id in w.rows then Unanswered(w.rows, id, request.fingerprint, w.utc) else stored;
      if asks then
        && v == w.(pending := None, rows := v.rows, phase := Waiting(call, request, w.mono))
        && (if id in w.rows then v.rows == w.rows else Registers(w.rows, request, v.rows))
      else v == w.(pending := None, phase := Idle, ledger := w.ledger.(denied := w.ledger.denied + [call.action]))
  {
    var call := w.phase.call;
    OpensExactlyWhen(w.rows, Request(RequestId(w.runRequest, call.action), Fingerprint(call.action, call.arguments),
                                     w.utc + w.approvalTimeout), w.utc, stored);
  }

  /** The wait is over and excluded from the clock. */
  ghost predicate WaitEnds(w: World, v: World)
    requires w.phase.Waiting?
  {
    && v.waits == w.waits + [Wait(w.phase.since, w.mono)]
    && v.ledger.humanWait == w.ledger.humanWait + (w.mono - w.phase.since)
    && v.rows == w.rows && v.consents == w.consents && v.performed == w.performed && v.ledger.writes == w.ledger.writes
    && v.ledger.tools == w.ledger.tools && v.ledger.policy == w.ledger.policy && v.mono == w.mono && v.utc == w.utc
  }

  /** Without an answer nothing happens. An attributed approval of exactly this request, within its deadline, goes on
      to the second check as the pending one; any other answer is a denial. */
  lemma PollDecides(w: World)
    requires w.phase.Waiting?
    ensures var v, call, request := Next(w, Poll), w.phase.call, w.phase.request;
      if request.id !in w.rows || w.rows[request.id].decision == "" then v == w
      else
        var row := w.rows[request.id];
        var granted := row.fingerprint == request.fingerprint && row.responder != ""
                       && Lower(row.decision) == "approve" && w.utc <= request.expires;
        && WaitEnds(w, v)
        && (if granted then
              && v.phase == Rechecking(call) && v.ledger.denied == w.ledger.denied
              && v.pending.Some? && v.pending.value.request == request
              && v.pending.value.decision.id in v.requests && v.requests[v.pending.value.decision.id] == request
            else
              v.phase == Idle && v.ledger.denied == w.ledger.denied + [call.action] && v.pending == w.pending)
  {
    if w.phase.request.id in w.rows {
      AnswersExactly(w.nextDecision, w.rows[w.phase.request.id], w.phase.request);
    }
  }

  /** Silence is a denial from the deadline on. */
  lemma ExpireDecides(w: World)
    requires w.phase.Waiting?
    ensures var v := Next(w, Expire);
      if w.utc < w.phase.request.expires then v == w
      else WaitEnds(w, v) && v.phase == Idle && v.ledger.denied == w.ledger.denied + [w.phase.call.action]
           && v.pending == w.pending
  {
  }

  /** The pending approval can be spent now. */
  ghost predicate PendingIsGood(w: World, stored: bool)
    requires w.pending.Some?
  {
    var d := w.pending.value.decision;
    && stored && d.id in w.requests
    && var request := w.requests[d.id];
      && d.outcome == Granted && d.fingerprint == request.fingerprint
      && w.utc <= (if d.expires.Some? then d.expires.value else request.expires)
      && Spendable(w.rows, request.id, request.fingerprint, w.utc)
  }

  /** After the second check a call is paid for and in hand exactly with budget left, preconditions that hold (a
      rebind's held before) and, if an approval is pending, that approval, which is then consumed. */
  lemma RecheckDecides(w: World, passes: bool, stored: bool)
    requires w.phase.Rechecking?
    ensures var v, call := Next(w, Recheck(passes, stored)), w.phase.call;
      var goesOn := && HasBudget(w) && (passes || call.action == RebindGateway)
                    && (w.pending.Some? ==> PendingIsGood(w, stored));
      && v.performed == w.performed && v.waits == w.waits && v.pending == w.pending
      && (goesOn <==> v.phase.Executing?)
      && v.ledger.writes == w.ledger.writes + (if goesOn then 1 else 0)
      && (goesOn ==> v.phase.performance.call == call && (v.phase.performance.consent.Some? <==> w.pending.Some?))
      && (!goesOn ==> v.phase == Idle && v.rows == w.rows && v.consents == w.consents)
  {
    if w.pending.Some? {
      SpendsExactlyWhen(w.requests, w.rows, w.pending.value.decision, w.utc, stored);
    }
  }

  /** The consent in hand is the kept request of the pending approval, and its row is the only one touched. */
  lemma RecheckTakesThePending(w: World, passes: bool, stored: bool)
    requires w.phase.Rechecking? && w.pending.Some? && Next(w, Recheck(passes, stored)).phase.Executing?
    ensures var v, d := Next(w, Recheck(passes, stored)), w.pending.value.decision;
      && d.id in w.requests
      && var request := w.requests[d.id];
        && v.phase.performance.consent == Some(Consent(request.id, request.fingerprint, w.utc))
        && v.consents == w.consents + [Consent(request.id, request.fingerprint, w.utc)]
        && v.rows == w.rows[request.id := w.rows[request.id].(consumedAt := Some(w.utc))]
        && v.requests == w.requests - {d.id}
  {
    RecheckDecides(w, passes, stored);
    SpendsExactlyWhen(w.requests, w.rows, w.pending.value.decision, w.utc, stored);
  }

  /** What is in hand is performed, once, and the run is at rest again. */
  lemma PerformDecides(w: World)
    requires w.phase.Executing?
    ensures Next(w, Perform) == w.(performed := w.performed + [w.phase.performance], phase := Idle)
  {
  }

  /** A turn is charged exactly in time and within its budget; tokens are charged first and end the run if they
      exceed theirs. */
  lemma ThinkingDecides(w: World, count: int)
    requires w.phase == Idle
    ensures Next(w, Turn) == if InTime(w) && w.ledger.turns < w.ledger.policy.maxTurns
                             then w.(ledger := w.ledger.(turns := w.ledger.turns + 1)) else w.(phase := Over)
    ensures var used := w.ledger.tokens + if count > 0 then count else 0;
      Next(w, UseTokens(count)) == w.(ledger := w.ledger.(tokens := used),
                                      phase := if used > w.ledger.policy.maxTokens then Over else Idle)
  {
  }

  /** Time passes, and others use the channel by its rules; neither touches anything else of the run. */
  lemma OthersDecide(w: World, mono: int, utc: nat, op: ChannelOp)
    ensures Next(w, Tick(mono, utc)) == if mono >= w.mono then w.(mono := mono, utc := utc) else w
    ensures var v := Next(w, Others(op));
      && v == w.(rows := v.rows)
      && match op
         case Open(request, stored) =>
           if request.id !in w.rows && stored then Registers(w.rows, request, v.rows) else v.rows == w.rows
         case DecideExactly(id, decision, fingerprint, responder, stored) =>
           if (decision == "approve" || decision == "decline") && responder != "" && stored
              && Unanswered(w.rows, id, fingerprint, w.utc)
           then v.rows == w.rows[id := w.rows[id].(decision := decision, responder := responder)]
           else v.rows == w.rows
         case Decide(id, decision, responder) =>
           if id in w.rows && w.rows[id].decision == ""
           then v.rows == w.rows[id := w.rows[id].(decision := decision, responder := responder)]
           else v.rows == w.rows
         case Consume(id, fingerprint, stored) =>
           if stored && Spendable(w.rows, id, fingerprint, w.utc)
           then v.rows == w.rows[id := w.rows[id].(consumedAt := Some(w.utc))]
           else v.rows == w.rows
  {
    match op
    case Open(request, stored) => OpensExactlyWhen(w.rows, request, w.utc, stored);
    case Consume(id, fingerprint, stored) => ConsumesExactlyWhen(w.rows, id, fingerprint, w.utc, stored);
    case _ =>
  }

  // ---- nothing unvetted is performed ---------------------------------------------------------------

  /** The last first check of this call passed, and no other call began since. */
  ghost predicate FirstPassed(w: World, steps: seq<Step>, call: Call) {
    steps != []
    && var v, s := Run(w, steps[..|steps| - 1]), steps[|steps| - 1];
      if s.Check? && v.phase.Checking? then s.passes && v.phase.call == call
      else !(s.Begin? && v.phase.Idle?) && FirstPassed(w, steps[..|steps| - 1], call)
  }

  /** Its second check passed after that. */
  ghost predicate SecondPassed(w: World, steps: seq<Step>, call: Call) {
    steps != []
    && var v, s := Run(w, steps[..|steps| - 1]), steps[|steps| - 1];
      if s.Recheck? && v.phase.Rechecking? then s.passes && v.phase.call == call
      else !(s.Begin? && v.phase.Idle?) && !(s.Check? && v.phase.Checking?)
           && SecondPassed(w, steps[..|steps| - 1], call)
  }

  /** What the phase of a run says of its checks. */
  ghost predicate Vetted(w: World, steps: seq<Step>) {
    match Run(w, steps).phase
    case Waiting(call, _, _) => FirstPassed(w, steps, call)
    case Rechecking(call) => FirstPassed(w, steps, call)
    case Executing(p) =>
      && FirstPassed(w, steps, p.call)
      && (Repairs(p.call.action) && p.call.action != RebindGateway ==> SecondPassed(w, steps, p.call))
    case _ => true
  }

  /** How the phase moves, whatever the step. */
  lemma PhaseMoves(w: World, s: Step)
    ensures var v := Next(w, s);
      match v.phase
      case Waiting(call, _, _) =>
        v.phase == w.phase || (s.Check? && s.passes && w.phase == Checking(call))
      case Rechecking(call) =>
        || v.phase == w.phase || (s.Check? && s.passes && w.phase == Checking(call))
        || (s.Poll? && w.phase.Waiting? && w.phase.call == call)
      case Executing(p) =>
        || v.phase == w.phase
        || (s.Check? && s.passes && w.phase == Checking(p.call) && !Repairs(p.call.action))
        || (s.Recheck? && w.phase == Rechecking(p.call) && (s.passes || p.call.action == RebindGateway))
      case _ => true
  {
    if s.Recheck? && w.phase.Rechecking? {
      RecheckDecides(w, s.passes, s.stored);
    } else if s.Poll? && w.phase.Waiting? {
      PollDecides(w);
    } else if s.Check? && w.phase.Checking? {
      CheckMoves(w, s.passes, s.stored);
    }
  }

  lemma CheckMoves(w: World, passes: bool, stored: bool)
    requires w.phase.Checking?
    ensures var v := Next(w, Check(passes, stored));
      && (v.phase == Idle || (passes && (v.phase.Waiting? || v.phase.Rechecking? || v.phase.Executing?)))
      && (v.phase.Waiting? || v.phase.Rechecking? ==> v.phase.call == w.phase.call)
      && (v.phase.Executing? ==> v.phase.performance.call == w.phase.call && !Repairs(w.phase.call.action))
  {
  }

  lemma {:induction false} RunIsVetted(w: World, steps: seq<Step>)
    requires Init(w)
    ensures Vetted(w, steps)
  {
    if steps != [] {
      RunIsVetted(w, steps[..|steps| - 1]);
      PhaseMoves(Run(w, steps[..|steps| - 1]), steps[|steps| - 1]);
    }
  }

  /** The i-th performance was carried out at some step, in hand and vetted. */
  ghost predicate PerformedVetted(w: World, steps: seq<Step>, i: nat, k: nat)
    requires i < |Run(w, steps).performed|
  {
    && k < |steps|
    && var p := Run(w, steps).performed[i];
      && steps[k] == Perform && Run(w, steps[..k]).phase == Executing(p) && |Run(w, steps[..k]).performed| == i
      && FirstPassed(w, steps[..k], p.call)
      && (Repairs(p.call.action) && p.call.action != RebindGateway ==> SecondPassed(w, steps[..k], p.call))
  }

  lemma OnlyPerformPerforms(w: World, s: Step)
    ensures Next(w, s).performed == w.performed
         || (s == Perform && w.phase.Executing? && Next(w, s).performed == w.performed + [w.phase.performance])
  {
    if s.Recheck? && w.phase.Rechecking? {
      RecheckDecides(w, s.passes, s.stored);
    }
  }

  /** Over every run, each performance follows a first check of its own call that passed, and for every repair
      but a rebind a second check that passed too. */
  lemma {:induction false} EveryPerformanceIsVetted(w: World, steps: seq<Step>, i: nat) returns (k: nat)
    requires Init(w) && i < |Run(w, steps).performed|
    ensures PerformedVetted(w, steps, i, k)
  {
    var init, s := steps[..|steps| - 1], steps[|steps| - 1];
    OnlyPerformPerforms(Run(w, init), s);
    if i < |Run(w, init).performed| {
      k := EveryPerformanceIsVetted(w, init, i);
      assert steps[..k] == init[..k];
    } else {
      k := |init|;
      RunIsVetted(w, init);
    }
  }
}
