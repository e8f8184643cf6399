/**
 The consumption ledger of one triage run: budgets, deferred writes, and a clock that stands still
 while a person decides.
 */
module Ledgers {
  import opened Options

  /** The four remediations by name; everything else the model may ask for, invented names included. */
  datatype Action = RefreshDataset | RebindGateway | ReenableSchedule | RerunPipeline | Other(name: string)

  predicate IsRemediation(action: Action) {
    !action.Other?
  }

  predicate NeedsApproval(action: Action) {
    action.RebindGateway? || action.ReenableSchedule? || action.RerunPipeline?
  }

  datatype Policy = Policy(
    maxTurns: nat, maxTools: nat, maxWrites: nat, maxTokens: nat, timeout: nat, allowed: set<Action>)

  datatype Ledger = Ledger(
    policy: Policy, startedAt: int, humanWait: int, turns: nat, tools: nat, attempted: nat, writes: nat, tokens: nat,
    blocked: seq<Action>, denied: seq<Action>)

  datatype Violation = MaxTurns | BudgetExceeded | TimedOut | PolicyBlocked

  /** What a charge leaves behind, and why it was refused if it was. */
  datatype Charge = Charge(ledger: Ledger, violation: Option<Violation>)

  function Elapsed(l: Ledger, now: int): int {
    now - l.startedAt - l.humanWait
  }

  function TurnTx(l: Ledger, now: int): Charge {
    if Elapsed(l, now) > l.policy.timeout then Charge(l, Some(TimedOut))
    else if l.turns >= l.policy.maxTurns then Charge(l, Some(MaxTurns))
    else Charge(l.(turns := l.turns + 1), None)
  }

  function TokensTx(l: Ledger, count: int): Charge {
    var used := l.tokens + if count > 0 then count else 0;
    Charge(l.(tokens := used), if used > l.policy.maxTokens then Some(BudgetExceeded) else None)
  }

  /** The end of a human wait that began at `started`. */
  function EndWaitTx(l: Ledger, started: int, now: int): Ledger {
    l.(humanWait := l.humanWait + (now - started))
  }

  function WriteTx(l: Ledger, action: Action): Charge {
    if l.writes >= l.policy.maxWrites then Charge(l.(blocked := l.blocked + [action]), Some(PolicyBlocked))
    else Charge(l.(writes := l.writes + 1), None)
  }

  function ToolCallTx(l: Ledger, action: Action, deferWrite: bool, now: int): Charge {
    var asked := l.(attempted := l.attempted + 1);
    if Elapsed(l, now) > l.policy.timeout then Charge(asked, Some(TimedOut))
    else if action !in l.policy.allowed then Charge(asked.(blocked := l.blocked + [action]), Some(PolicyBlocked))
    else if l.tools >= l.policy.maxTools then Charge(asked, Some(BudgetExceeded))
    else if IsRemediation(action) && !deferWrite then WriteTx(asked.(tools := l.tools + 1), action)
    else Charge(asked.(tools := l.tools + 1), None)
  }

  class PolicyLedger {
    const policy: Policy
    const startedAt: int
    var humanWait: int
    var turns: nat
    var tools: nat
    var attempted: nat
    var writes: nat
    var tokens: nat
    var blocked: seq<Action>
    var denied: seq<Action>

    ghost function State(): Ledger
      reads this
    {
      Ledger(policy, startedAt, humanWait, turns, tools, attempted, writes, tokens, blocked, denied)
    }

    constructor (policy: Policy, now: int)
      ensures State() == Ledger(policy, now, 0, 0, 0, 0, 0, 0, [], [])
    {
      this.policy, startedAt, humanWait := policy, now, 0;
      turns, tools, attempted, writes, tokens, blocked, denied := 0, 0, 0, 0, 0, [], [];
    }

    function ElapsedAt(now: int): (elapsed: int)
      reads this
      ensures elapsed == Elapsed(State(), now)
    {
      now - startedAt - humanWait
    }

    method ChargeTurn(now: int) returns (violation: Option<Violation>)
      modifies this
      ensures Charge(State(), violation) == TurnTx(old(State()), now)
      ensures violation == Some(TimedOut) <==> now - startedAt - humanWait > policy.timeout
      ensures violation == Some(MaxTurns) <==>
                now - startedAt - humanWait <= policy.timeout && old(turns) >= policy.maxTurns
      ensures violation.Some? ==> violation == Some(TimedOut) || violation == Some(MaxTurns)
      ensures State() == old(State()).(turns := old(turns) + if violation.None? then 1 else 0)
    {
      if ElapsedAt(now) > policy.timeout {
        return Some(TimedOut);
      }
      if turns >= policy.maxTurns {
        return Some(MaxTurns);
      }
      turns := turns + 1;
      return None;
    }

    method ChargeTokens(count: int) returns (violation: Option<Violation>)
      modifies this
      ensures Charge(State(), violation) == TokensTx(old(State()), count)
      ensures State() == old(State()).(tokens := old(tokens) + if count > 0 then count else 0)
      ensures violation == if tokens > policy.maxTokens then Some(BudgetExceeded) else None
    {
      if count > 0 {
        tokens := tokens + count;
      }
      return if tokens > policy.maxTokens then Some(BudgetExceeded) else None;
    }

    method ChargeWrite(action: Action) returns (violation: Option<Violation>)
      modifies this
      ensures Charge(State(), violation) == WriteTx(old(State()), action)
      ensures violation.None? <==> old(writes) < policy.maxWrites
      ensures violation.Some? ==> violation == Some(PolicyBlocked)
      ensures State() == old(State()).(writes := old(writes) + if violation.None? then 1 else 0,
                                       blocked := old(blocked) + if violation.None? then [] else [action])
    {
      if writes >= policy.maxWrites {
        blocked := blocked + [action];
        return Some(PolicyBlocked);
      }
      writes := writes + 1;
      return None;
    }

    method ChargeToolCall(action: Action, deferWrite: bool, now: int) returns (violation: Option<Violation>)
      modifies this
      ensures Charge(State(), violation) == ToolCallTx(old(State()), action, deferWrite, now)
      ensures violation.None? <==>
                && old(ElapsedAt(now)) <= policy.timeout && action in policy.allowed && old(tools) < policy.maxTools
                && (IsRemediation(action) && !deferWrite ==> old(writes) < policy.maxWrites)
      ensures violation == Some(TimedOut) <==> now - startedAt - humanWait > policy.timeout
      ensures violation == Some(BudgetExceeded) <==>
                && now - startedAt - humanWait <= policy.timeout && action in policy.allowed
                && old(tools) >= policy.maxTools
      ensures violation.Some? ==> violation != Some(MaxTurns)
      ensures attempted == old(attempted) + 1 && turns == old(turns) && tokens == old(tokens)
      ensures denied == old(denied) && humanWait == old(humanWait)
      ensures blocked == old(blocked) + if violation == Some(PolicyBlocked) then [action] else []
      ensures deferWrite || action == RefreshDataset || action == RebindGateway || action == ReenableSchedule
              || action == RerunPipeline || writes == old(writes)
      ensures writes == old(writes) + if violation.None? && IsRemediation(action) && !deferWrite then 1 else 0
    {
      attempted := attempted + 1;
      if ElapsedAt(now) > policy.timeout {
        return Some(TimedOut);
      }
      if action !in policy.allowed {
        blocked := blocked + [action];
        return Some(PolicyBlocked);
      }
      if tools >= policy.maxTools {
        return Some(BudgetExceeded);
      }
      tools := tools + 1;
      violation := None;
      if IsRemediation(action) && !deferWrite {
        violation := ChargeWrite(action);
      }
    }

    method RecordDenied(action: Action)
      modifies this
      ensures State() == old(State()).(denied := old(denied) + [action])
    {
      denied := denied + [action];
    }

    /** The end of a human wait that began at `started`. */
    method EndWait(started: int, now: int)
      modifies this
      ensures State() == EndWaitTx(old(State()), started, now)
      ensures forall t :: ElapsedAt(t) == old(ElapsedAt(t)) - (now - started)
    {
      humanWait := humanWait + (now - started);
    }
  }

  // ---- what the clock measures ------------------------------------------------------------

  datatype Wait = Wait(from: int, until: int)

  function Total(waits: seq<Wait>): int {
    if waits == [] then 0 else Total(waits[..|waits| - 1]) + waits[|waits| - 1].until - waits[|waits| - 1].from
  }

  /** How many waits are under way in the tick that starts at t. */
  function Covers(waits: seq<Wait>, t: int): nat {
    if waits == [] then 0
    else
      var w := waits[|waits| - 1];
      Covers(waits[..|waits| - 1], t) + if w.from <= t < w.until then 1 else 0
  }

  /** The ticks in which the run waits for nobody. */
  function Working(waits: seq<Wait>, from: int, until: int): nat
    decreases until - from
  {
    if until <= from then 0 else Working(waits, from, until - 1) + if Covers(waits, until - 1) == 0 then 1 else 0
  }

  function SumCovers(waits: seq<Wait>, from: int, until: int): nat
    decreases until - from
  {
    if until <= from then 0 else SumCovers(waits, from, until - 1) + Covers(waits, until - 1)
  }

  ghost predicate Within(waits: seq<Wait>, from: int, until: int) {
    forall i | 0 <= i < |waits| :: from <= waits[i].from <= waits[i].until <= until
  }

  ghost predicate Alone(waits: seq<Wait>, from: int, until: int) {
    forall t | from <= t < until :: Covers(waits, t) <= 1
  }

  lemma {:induction false} SumOfNoWaits(from: int, until: int)
    ensures SumCovers([], from, until) == 0
    decreases until - from
  {
    if from < until {
      SumOfNoWaits(from, until - 1);
    }
  }

  /** The ticks of a wait before `until`. */
  function Overlap(w: Wait, until: int): int {
    if until <= w.from then 0 else if until <= w.until then until - w.from else w.until - w.from
  }

  /** One more wait adds as many ticks as it overlaps. */
  lemma {:induction false} SumOfOneMore(waits: seq<Wait>, from: int, until: int)
    requires waits != [] && from <= until
    requires from <= waits[|waits| - 1].from <= waits[|waits| - 1].until
    ensures SumCovers(waits, from, until)
         == SumCovers(waits[..|waits| - 1], from, until) + Overlap(waits[|waits| - 1], until)
    decreases until - from
  {
    if from < until {
      SumOfOneMore(waits, from, until - 1);
    }
  }

  lemma {:induction false} SumIsTotal(waits: seq<Wait>, from: int, until: int)
    requires from <= until && Within(waits, from, until)
    ensures SumCovers(waits, from, until) == Total(waits)
  {
    if waits == [] {
      SumOfNoWaits(from, until);
    } else {
      SumOfOneMore(waits, from, until);
      SumIsTotal(waits[..|waits| - 1], from, until);
    }
  }

  lemma {:induction false} WorkingAgainstCovers(waits: seq<Wait>, from: int, until: int)
    requires from <= until
    ensures until - from - SumCovers(waits, from, until) <= Working(waits, from, until)
    ensures until - from - SumCovers(waits, from, until) == Working(waits, from, until) <==> Alone(waits, from, until)
    decreases until - from
  {
    if from < until {
      WorkingAgainstCovers(waits, from, until - 1);
    }
  }

  /** Outside waits the elapsed time never exceeds the time actually worked, and it is that time exactly
      when no two waits overlap: overlapping ones are subtracted twice. */
  lemma ElapsedIsWorkingTimeExactlyWithoutOverlap(l: Ledger, waits: seq<Wait>, now: int)
    requires l.startedAt <= now && Within(waits, l.startedAt, now) && l.humanWait == Total(waits)
    ensures Elapsed(l, now) <= Working(waits, l.startedAt, now)
    ensures Elapsed(l, now) == Working(waits, l.startedAt, now) <==> Alone(waits, l.startedAt, now)
  {
    SumIsTotal(waits, l.startedAt, now);
    WorkingAgainstCovers(waits, l.startedAt, now);
  }

  /** Waits that follow one another, the last of them over by `now`. */
  ghost predicate InTurn(waits: seq<Wait>, start: int, now: int) {
    if waits == [] then start <= now
    else
      var w := waits[|waits| - 1];
      InTurn(waits[..|waits| - 1], start, w.from) && w.from <= w.until <= now
  }

  lemma {:induction false} InTurnIsWithin(waits: seq<Wait>, start: int, now: int)
    requires InTurn(waits, start, now)
    ensures start <= now && Within(waits, start, now)
  {
    if waits != [] {
      InTurnIsWithin(waits[..|waits| - 1], start, waits[|waits| - 1].from);
    }
  }

  lemma {:induction false} NothingCoveredLater(waits: seq<Wait>, start: int, now: int, t: int)
    requires InTurn(waits, start, now) && now <= t
    ensures Covers(waits, t) == 0
  {
    if waits != [] {
      NothingCoveredLater(waits[..|waits| - 1], start, waits[|waits| - 1].from, t);
    }
  }

  lemma {:induction false} InTurnIsAlone(waits: seq<Wait>, start: int, now: int, t: int)
    requires InTurn(waits, start, now)
    ensures Covers(waits, t) <= 1
  {
    if waits != [] {
      var w := waits[|waits| - 1];
      InTurnIsAlone(waits[..|waits| - 1], start, w.from, t);
      if w.from <= t {
        NothingCoveredLater(waits[..|waits| - 1], start, w.from, t);
      }
    }
  }

  lemma InTurnExcludesExactlyTheWaits(l: Ledger, waits: seq<Wait>, now: int)
    requires InTurn(waits, l.startedAt, now) && l.humanWait == Total(waits)
    ensures Elapsed(l, now) == Working(waits, l.startedAt, now)
  {
    InTurnIsWithin(waits, l.startedAt, now);
    forall t ensures Covers(waits, t) <= 1 {
      InTurnIsAlone(waits, l.startedAt, now, t);
    }
    ElapsedIsWorkingTimeExactlyWithoutOverlap(l, waits, now);
  }

  /** The ledger after a series of waits. */
  function AfterWaits(l: Ledger, waits: seq<Wait>): Ledger {
    if waits == [] then l
    else
      var w := waits[|waits| - 1];
      EndWaitTx(AfterWaits(l, waits[..|waits| - 1]), w.from, w.until)
  }

  lemma {:induction false} AfterWaitsAddsThem(l: Ledger, waits: seq<Wait>)
    ensures AfterWaits(l, waits) == l.(humanWait := l.humanWait + Total(waits))
  {
    if waits != [] {
      AfterWaitsAddsThem(l, waits[..|waits| - 1]);
    }
  }

  /** Over any waits on a fresh ledger: the elapsed time never exceeds the time worked, and is that time
      exactly when no two waits overlap. */
  lemma FreshLedgerShowsWorkingTimeExactlyWithoutOverlap(policy: Policy, start: int, waits: seq<Wait>, now: int)
    requires start <= now && Within(waits, start, now)
    ensures var l := AfterWaits(Ledger(policy, start, 0, 0, 0, 0, 0, 0, [], []), waits);
      && Elapsed(l, now) <= Working(waits, start, now)
      && (Elapsed(l, now) == Working(waits, start, now) <==> Alone(waits, start, now))
  {
    var blank := Ledger(policy, start, 0, 0, 0, 0, 0, 0, [], []);
    AfterWaitsAddsThem(blank, waits);
    ElapsedIsWorkingTimeExactlyWithoutOverlap(AfterWaits(blank, waits), waits, now);
  }

  /** Two approvals awaited side by side for ten ticks, on a fresh ledger, leave a run that worked five
      ticks with a negative elapsed time. */
  lemma OverlappingWaitsAreSubtractedTwice(policy: Policy)
    ensures var l := EndWaitTx(EndWaitTx(Ledger(policy, 0, 0, 0, 0, 0, 0, 0, [], []), 0, 10), 0, 10);
      Elapsed(l, 15) == -5 && Working([Wait(0, 10), Wait(0, 10)], 0, 15) >= 5
  {
    var waits := [Wait(0, 10), Wait(0, 10)];
    var first := waits[..1];
    assert first == [Wait(0, 10)] && first[..0] == [];
    forall t ensures Covers(waits, t) == if 0 <= t < 10 then 2 else 0 {
      assert Covers(first, t) == if 0 <= t < 10 then 1 else 0;
    }
    assert Working(waits, 0, 15) == Working(waits, 0, 10) + 5;
  }
}
