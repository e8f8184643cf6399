/**
 One triage run dispatching its tool calls one after another against its ledger and the web gate,
 while anyone else uses the approval channel.
 */
module ApprovalRun {
  import opened Options
  import opened Ledgers
  import opened ApprovalGate

  /** A tool call, with the arguments it is carried out with. */
  datatype Call = Call(action: Action, arguments: string)

  /** A consent this run consumed: the channel row, what it was given for, and when. */
  datatype Consent = Consent(id: RequestId, fingerprint: Fingerprint, at: nat)

  datatype Performance = Performance(call: Call, consent: Option<Consent>)

  datatype Pending = Pending(request: Request, decision: Decision)

  datatype Phase =
    | Idle
    | Checking(call: Call)
    | Waiting(call: Call, request: Request, since: int)
    | Rechecking(call: Call)
    | Executing(performance: Performance)
    | Over

  datatype World = World(
    runRequest: string, hasGate: bool, approvalTimeout: nat,
    ledger: Ledger, requests: map<nat, Request>, pending: Option<Pending>, nextDecision: nat, phase: Phase,
    rows: Rows, mono: int, utc: nat,
    waits: seq<Wait>, consents: seq<Consent>, performed: seq<Performance>)

  datatype Step =
    | Begin(call: Call)
    | Check(passes: bool, stored: bool)
    | Poll
    | Expire
    | Recheck(passes: bool, stored: bool)
    | Perform
    | Turn
    | UseTokens(count: int)
    | Tick(mono: int, utc: nat)
    | Others(op: ChannelOp)

  function FingerprintOf(call: Call): Fingerprint {
    Fingerprint(call.action, call.arguments)
  }

  predicate BudgetSpent(l: Ledger) {
    l.writes >= l.policy.maxWrites
  }

  /** A tool call begins: the write is deferred for every remediation. A blocked call is reported to the
      model; every other violation ends the run. */
  function BeginTx(w: World, call: Call): World {
    var charge := ToolCallTx(w.ledger, call.action, IsRemediation(call.action), w.mono);
    w.(ledger := charge.ledger,
       phase := if charge.violation.None? then Checking(call)
                else if charge.violation == Some(PolicyBlocked) then Idle
                else Over)
  }

  function Deny(w: World, action: Action): World {
    w.(ledger := w.ledger.(denied := w.ledger.denied + [action]), phase := Idle)
  }

  function EndWait(w: World): World
    requires w.phase.Waiting?
  {
    w.(ledger := EndWaitTx(w.ledger, w.phase.since, w.mono),
       waits := w.waits + [Wait(w.phase.since, w.mono)])
  }

  /** The preconditions are evaluated; `passes` is what the parts that are not modelled say. */
  function CheckTx(w: World, call: Call, passes: bool, stored: bool): World {
    if IsRemediation(call.action) && BudgetSpent(w.ledger)
    then w.(ledger := w.ledger.(blocked := w.ledger.blocked + [call.action]), phase := Idle)
    else if !passes then w.(phase := Idle)
    else if NeedsApproval(call.action) then SeekTx(w.(pending := None), call, stored)
    else if IsRemediation(call.action) then w.(phase := Rechecking(call))
    else w.(phase := Executing(Performance(call, None)))
  }

  /** A person is asked, unless there is no gate or the request cannot be registered. */
  function SeekTx(w: World, call: Call, stored: bool): World {
    var request := Request(RequestId(w.runRequest, call.action), FingerprintOf(call), w.utc + w.approvalTimeout);
    var put := OpenTx(w.rows, request, w.utc, stored);
    if !w.hasGate || !put.done then Deny(w, call.action)
    else w.(rows := put.rows, phase := Waiting(call, request, w.mono))
  }

  /** A poll finds an answer: the wait ends, and a valid approval goes on to the second check. */
  function PollTx(w: World): World
    requires w.phase.Waiting?
  {
    var call, request := w.phase.call, w.phase.request;
    if request.id !in w.rows || w.rows[request.id].decision == "" then w
    else
      var answer := AnswerOf(w.nextDecision, w.rows[request.id], request);
      var v := EndWait(w).(nextDecision := w.nextDecision + 1,
                           requests := if answer.kept then w.requests[w.nextDecision := request] else w.requests);
      if IsValidFor(answer.decision, request, w.utc)
      then v.(pending := Some(Pending(request, answer.decision)), phase := Rechecking(call))
      else Deny(v, call.action)
  }

  function ExpireTx(w: World): World
    requires w.phase.Waiting?
  {
    if w.utc < w.phase.request.expires then w else Deny(EndWait(w), w.phase.call.action)
  }

  /** Whose preconditions read state that others may change meanwhile: the retry store, the refresh history,
      the pipeline's runs and its rerun reservations. A rebind's only repeat the answer of the first check. */
  predicate Rereads(action: Action) {
    !action.RebindGateway?
  }

  /** After the wait: the preconditions again, then consent, then budget, in one go. */
  function RecheckTx(w: World, call: Call, passes: bool, stored: bool): World {
    if BudgetSpent(w.ledger) then w.(ledger := w.ledger.(blocked := w.ledger.blocked + [call.action]), phase := Idle)
    else if Rereads(call.action) && !passes then w.(phase := Idle)
    else if w.pending.None? then ChargeTx(w, call, None)
    else ChargeSpent(w, call, SpendTx(w.requests, w.rows, w.pending.value.decision, w.utc, stored))
  }

  function ChargeSpent(w: World, call: Call, spent: Consumed): World {
    var v := w.(requests := spent.requests, rows := spent.rows);
    match spent.request
    case None => Deny(v, call.action)
    case Some(request) =>
      var consent := Consent(request.id, request.fingerprint, w.utc);
      ChargeTx(v.(consents := w.consents + [consent]), call, Some(consent))
  }

  function ChargeTx(w: World, call: Call, consent: Option<Consent>): World {
    var charge := WriteTx(w.ledger, call.action);
    w.(ledger := charge.ledger, phase := if charge.violation.None? then Executing(Performance(call, consent)) else Idle)
  }

  function PerformTx(w: World, p: Performance): World {
    w.(performed := w.performed + [p], phase := Idle)
  }

  function Charged(w: World, charge: Charge): World {
    w.(ledger := charge.ledger, phase := if charge.violation.None? then w.phase else Over)
  }

  /** The agents think between tool calls, and inside those that only read. */
  predicate Thinking(w: World) {
    w.phase.Idle? || (w.phase.Executing? && !IsRemediation(w.phase.performance.call.action))
  }

  /** One atomic step; a step that is not enabled changes nothing. */
  function Next(w: World, s: Step): World {
    match s
    case Begin(call) => if w.phase.Idle? then BeginTx(w, call) else w
    case Check(passes, stored) => if w.phase.Checking? then CheckTx(w, w.phase.call, passes, stored) else w
    case Poll => if w.phase.Waiting? then PollTx(w) else w
    case Expire => if w.phase.Waiting? then ExpireTx(w) else w
    case Recheck(passes, stored) => if w.phase.Rechecking? then RecheckTx(w, w.phase.call, passes, stored) else w
    case Perform => if w.phase.Executing? then PerformTx(w, w.phase.performance) else w
    case Turn => if Thinking(w) then Charged(w, TurnTx(w.ledger, w.mono)) else w
    case UseTokens(count) => if Thinking(w) then Charged(w, TokensTx(w.ledger, count)) else w
    case Tick(mono, utc) => if mono >= w.mono then w.(mono := mono, utc := utc) else w
    case Others(op) => w.(rows := ApplyTx(w.rows, op, w.utc))
  }

  function Run(w: World, steps: seq<Step>): World {
    if steps == [] then w else Next(Run(w, steps[..|steps| - 1]), steps[|steps| - 1])
  }

  lemma RunOneMore(w: World, steps: seq<Step>, s: Step)
    ensures Run(w, steps + [s]) == Next(Run(w, steps), s)
  {
    assert (steps + [s])[..|steps|] == steps;
  }

  /** A run begins with a fresh ledger on whatever the channel holds. */
  ghost predicate Init(w: World) {
    && w.ledger == Ledger(w.ledger.policy, w.mono, 0, 0, 0, 0, 0, 0, [], [])
    && w.requests == map[] && w.pending == None && w.phase == Idle
    && w.waits == [] && w.consents == [] && w.performed == []
  }

  // ---- the budget -----------------------------------------------------------------------------

  function Remediations(performed: seq<Performance>): nat {
    if performed == [] then 0
    else
      Remediations(performed[..|performed| - 1])
        + if IsRemediation(performed[|performed| - 1].call.action) then 1 else 0
  }

  /** A remediation that is paid for and not yet performed. */
  function InHand(w: World): nat {
    if w.phase.Executing? && IsRemediation(w.phase.performance.call.action) then 1 else 0
  }

  /** Every write that was charged was performed, save the one in hand; and no budget is exceeded. */
  ghost predicate Budgeted(w: World) {
    && w.ledger.writes == Remediations(w.performed) + InHand(w) <= w.ledger.policy.maxWrites
    && w.ledger.tools <= w.ledger.policy.maxTools && w.ledger.turns <= w.ledger.policy.maxTurns
    && (w.phase.Over? || w.ledger.tokens <= w.ledger.policy.maxTokens)
    && (w.phase.Rechecking? ==> IsRemediation(w.phase.call.action))
    && (w.phase.Waiting? ==> NeedsApproval(w.phase.call.action))
  }

  lemma RemediationsAppend(performed: seq<Performance>, p: Performance)
    ensures Remediations(performed + [p]) == Remediations(performed) + if IsRemediation(p.call.action) then 1 else 0
  {
    assert (performed + [p])[..|performed|] == performed;
  }

  lemma GatedIsRemediation(action: Action)
    requires NeedsApproval(action)
    ensures IsRemediation(action)
  {}

  lemma PollKeepsBudgeted(w: World)
    requires Budgeted(w) && w.phase.Waiting?
    ensures Budgeted(PollTx(w)) && PollTx(w).ledger.policy == w.ledger.policy
  {
    GatedIsRemediation(w.phase.call.action);
  }

  lemma ChargeSpentKeepsBudgeted(w: World, spent: Consumed)
    requires Budgeted(w) && w.phase.Rechecking?
    ensures Budgeted(ChargeSpent(w, w.phase.call, spent))
    ensures ChargeSpent(w, w.phase.call, spent).ledger.policy == w.ledger.policy
  {}

  lemma RecheckKeepsBudgeted(w: World, passes: bool, stored: bool)
    requires Budgeted(w) && w.phase.Rechecking?
    ensures Budgeted(RecheckTx(w, w.phase.call, passes, stored))
    ensures RecheckTx(w, w.phase.call, passes, stored).ledger.policy == w.ledger.policy
  {
    if w.pending.Some? {
      ChargeSpentKeepsBudgeted(w, SpendTx(w.requests, w.rows, w.pending.value.decision, w.utc, stored));
    }
  }

  lemma PerformKeepsBudgeted(w: World)
    requires Budgeted(w) && w.phase.Executing?
    ensures Budgeted(PerformTx(w, w.phase.performance))
    ensures PerformTx(w, w.phase.performance).ledger.policy == w.ledger.policy
  {
    RemediationsAppend(w.performed, w.phase.performance);
    var v := PerformTx(w, w.phase.performance);
    assert Remediations(v.performed) == Remediations(w.performed) + InHand(w) && InHand(v) == 0;
    assert v.ledger == w.ledger && v.phase == Idle;
  }

  lemma CheckKeepsBudgeted(w: World, passes: bool, stored: bool)
    requires Budgeted(w) && w.phase.Checking?
    ensures Budgeted(CheckTx(w, w.phase.call, passes, stored))
    ensures CheckTx(w, w.phase.call, passes, stored).ledger.policy == w.ledger.policy
  {}

  lemma NextKeepsBudgeted(w: World, s: Step)
    requires Budgeted(w)
    ensures Budgeted(Next(w, s)) && Next(w, s).ledger.policy == w.ledger.policy
  {
    match s
    case Check(passes, stored) => if w.phase.Checking? { CheckKeepsBudgeted(w, passes, stored); }
    case Poll => if w.phase.Waiting? { PollKeepsBudgeted(w); }
    case Recheck(passes, stored) => if w.phase.Rechecking? { RecheckKeepsBudgeted(w, passes, stored); }
    case Perform => if w.phase.Executing? { PerformKeepsBudgeted(w); }
    case _ => OtherStepsKeepBudgeted(w, s);
  }

  lemma OtherStepsKeepBudgeted(w: World, s: Step)
    requires Budgeted(w) && !s.Check? && !s.Poll? && !s.Recheck? && !s.Perform?
    ensures Budgeted(Next(w, s)) && Next(w, s).ledger.policy == w.ledger.policy
  {}

  lemma {:induction false} RunKeepsBudgeted(w: World, steps: seq<Step>)
    requires Init(w)
    ensures Budgeted(Run(w, steps)) && Run(w, steps).ledger.policy == w.ledger.policy
  {
    if steps != [] {
      RunKeepsBudgeted(w, steps[..|steps| - 1]);
      NextKeepsBudgeted(Run(w, steps[..|steps| - 1]), steps[|steps| - 1]);
    }
  }

  /** Over every run, the remediations performed never exceed the write budget. */
  lemma PerformedWritesStayWithinBudget(w: World, steps: seq<Step>)
    requires Init(w)
    ensures Remediations(Run(w, steps).performed) <= w.ledger.policy.maxWrites
  {
    RunKeepsBudgeted(w, steps);
  }

  /** The write budget moves only with performed remediations: whatever was refused, denied, timed out or
      blocked in between, a run that comes back to rest having performed as many has spent as much. */
  lemma RefusalsCostNothing(w: World, before: seq<Step>, between: seq<Step>)
    requires Init(w) && !Run(w, before).phase.Executing? && !Run(w, before + between).phase.Executing?
    requires Remediations(Run(w, before).performed) == Remediations(Run(w, before + between).performed)
    ensures Run(w, before).ledger.writes == Run(w, before + between).ledger.writes
  {
    RunKeepsBudgeted(w, before);
    RunKeepsBudgeted(w, before + between);
  }

  // ---- the clock ---------------------------------------------------------------------------------

  ghost predicate Timed(w: World) {
    && w.ledger.humanWait == Total(w.waits)
    && InTurn(w.waits, w.ledger.startedAt, if w.phase.Waiting? then w.phase.since else w.mono)
    && (w.phase.Waiting? ==> w.phase.since <= w.mono)
  }

  lemma {:induction false} InTurnLater(waits: seq<Wait>, start: int, now: int, later: int)
    requires InTurn(waits, start, now) && now <= later
    ensures InTurn(waits, start, later)
  {}

  lemma EndWaitIsInTurn(w: World)
    requires Timed(w) && w.phase.Waiting?
    ensures EndWait(w).ledger.humanWait == Total(EndWait(w).waits)
    ensures InTurn(EndWait(w).waits, w.ledger.startedAt, w.mono)
  {
    assert EndWait(w).waits[..|w.waits|] == w.waits;
  }

  lemma WaitEndsKeepTimed(w: World)
    requires Timed(w) && w.phase.Waiting?
    ensures Timed(PollTx(w)) && Timed(ExpireTx(w))
  {
    EndWaitIsInTurn(w);
  }

  lemma CheckKeepsTimed(w: World, passes: bool, stored: bool)
    requires Timed(w) && w.phase.Checking?
    ensures Timed(CheckTx(w, w.phase.call, passes, stored))
  {}

  lemma RecheckKeepsTimed(w: World, passes: bool, stored: bool)
    requires Timed(w) && w.phase.Rechecking?
    ensures Timed(RecheckTx(w, w.phase.call, passes, stored))
  {}

  lemma NextKeepsTimed(w: World, s: Step)
    requires Timed(w)
    ensures Timed(Next(w, s))
  {
    match s
    case Poll => if w.phase.Waiting? { WaitEndsKeepTimed(w); }
    case Expire => if w.phase.Waiting? { WaitEndsKeepTimed(w); }
    case Check(passes, stored) => if w.phase.Checking? { CheckKeepsTimed(w, passes, stored); }
    case Recheck(passes, stored) => if w.phase.Rechecking? { RecheckKeepsTimed(w, passes, stored); }
    case Tick(mono, utc) =>
      if mono >= w.mono && !w.phase.Waiting? { InTurnLater(w.waits, w.ledger.startedAt, w.mono, mono); }
    case _ =>
  }

  lemma {:induction false} RunKeepsTimed(w: World, steps: seq<Step>)
    requires Init(w)
    ensures Timed(Run(w, steps))
  {
    if steps != [] {
      RunKeepsTimed(w, steps[..|steps| - 1]);
      NextKeepsTimed(Run(w, steps[..|steps| - 1]), steps[|steps| - 1]);
    }
  }

  /** Outside a wait, the clock of a run shows exactly the time in which it waited for nobody. */
  lemma ClockShowsWorkingTime(w: World, steps: seq<Step>)
    requires Init(w) && !Run(w, steps).phase.Waiting?
    ensures var v := Run(w, steps);
      Elapsed(v.ledger, v.mono) == Working(v.waits, v.ledger.startedAt, v.mono)
  {
    RunKeepsTimed(w, steps);
    var v := Run(w, steps);
    InTurnExcludesExactlyTheWaits(v.ledger, v.waits, v.mono);
  }
}
