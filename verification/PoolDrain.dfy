/**
 One drain of the two monitoring pools under an admission deadline.

 The budget is asked before every attempt and again in the claiming thread. The
 pools belong to everybody: `env` rewrites them before each attempt. Every
 attempt is recorded in a trace, and the theorems are about the trace.
 */
module PoolDrain {

  datatype Pool = Reconcile | Action

  datatype Queues = Queues(reconcile: seq<nat>, action: seq<nat>) {
    function Of(p: Pool): seq<nat> { if p == Reconcile then reconcile else action }
    function Without(p: Pool): Queues
      requires Of(p) != []
    {
      if p == Reconcile then Queues(reconcile[1..], action) else Queues(reconcile, action[1..])
    }
  }

  /** `clock(n)` is the reading at the n-th question; without a budget everything is admitted. */
  datatype Budget = Unlimited | Until(deadline: int, workSeconds: int, clock: nat -> int)

  predicate CanClaim(b: Budget, n: nat) {
    b.Unlimited? || b.deadline - b.clock(n) >= b.workSeconds
  }

  ghost predicate MonotonicClock(b: Budget) {
    b.Until? ==> forall i: nat, j: nat | i <= j :: b.clock(i) <= b.clock(j)
  }

  /** Closed in the claiming thread, the budget is still closed when it is asked before the next attempt. */
  ghost predicate NeverReopens(b: Budget) {
    forall n: nat | CanClaim(b, n) && !CanClaim(b, n + 1) :: !CanClaim(b, n + 2)
  }

  lemma MonotonicNeverReopens(b: Budget)
    requires MonotonicClock(b)
    ensures NeverReopens(b)
  {
    forall n: nat | CanClaim(b, n) && !CanClaim(b, n + 1) ensures !CanClaim(b, n + 2) {
      assert b.clock(n + 1) <= b.clock(n + 2);
    }
  }

  /** One claim attempt: the pool's contents at that moment, the inner budget question and its answer. */
  datatype Attempt = Attempt(round: nat, pool: Pool, seen: seq<nat>, question: nat, admitted: bool)

  predicate Claims(a: Attempt) { a.admitted && a.seen != [] }

  datatype Stop = AtLimit | BudgetClosed | NothingFound

  datatype Drain = Drain(queues: Queues, questions: nat, trace: seq<Attempt>)

  type Environment = (nat, Queues) -> Queues

  /** The attempt that follows an admitted outer question. */
  function TryPool(env: Environment, b: Budget, d: Drain, round: nat, pool: Pool): Drain {
    var queues := env(|d.trace|, d.queues);
    var a := Attempt(round, pool, queues.Of(pool), d.questions + 1, CanClaim(b, d.questions + 1));
    Drain(if Claims(a) then queues.Without(pool) else queues, d.questions + 2, d.trace + [a])
  }

  predicate LastClaimed(d: Drain) {
    d.trace != [] && Claims(d.trace[|d.trace| - 1])
  }

  function Other(p: Pool): Pool { if p == Action then Reconcile else Action }

  datatype RoundEnd = GotWork | Closed | Nothing

  /** One round: the preferred pool, then the other one if nothing was claimed. */
  function OneRound(env: Environment, b: Budget, prefer: Pool, d: Drain, round: nat): (Drain, RoundEnd) {
    if !CanClaim(b, d.questions) then (d.(questions := d.questions + 1), Closed)
    else
      var d1 := TryPool(env, b, d, round, prefer);
      if LastClaimed(d1) then (d1, GotWork)
      else if !CanClaim(b, d1.questions) then (d1.(questions := d1.questions + 1), Closed)
      else
        var d2 := TryPool(env, b, d1, round, Other(prefer));
        (d2, if LastClaimed(d2) then GotWork else Nothing)
  }

  /** The rounds from `round` on. */
  function Rounds(env: Environment, b: Budget, prefer: Pool, d: Drain, round: nat, limit: nat): (Drain, Stop)
    decreases limit - round
  {
    if round >= limit then (d, AtLimit)
    else
      var (d1, end) := OneRound(env, b, prefer, d, round);
      match end
      case GotWork => Rounds(env, b, prefer, d1, round + 1, limit)
      case Closed => (d1, BudgetClosed)
      case Nothing => (d1, NothingFound)
  }

  function RoundLimit(limit: int): nat {
    var capped := if limit < 100 then limit else 100;
    if capped > 1 then capped else 1
  }

  function DrainOnce(env: Environment, b: Budget, prefer: Pool, limit: int, queues: Queues): (Drain, Stop) {
    if !CanClaim(b, 0) then (Drain(queues, 1, []), BudgetClosed)
    else Rounds(env, b, prefer, Drain(queues, 1, []), 0, RoundLimit(limit))
  }

  class Monitor {
    var queues: Queues
    var questions: nat
    var trace: seq<Attempt>

    constructor (q: Queues)
      ensures queues == q && questions == 0 && trace == []
    {
      queues, questions, trace := q, 0, [];
    }

    method Ask(b: Budget) returns (open: bool)
      modifies this`questions
      ensures open == CanClaim(b, old(questions)) && questions == old(questions) + 1
    {
      open := CanClaim(b, questions);
      questions := questions + 1;
    }

    /** The second budget question is asked in the claiming thread, after the pool moved on. */
    method Try(env: Environment, b: Budget, round: nat, pool: Pool) returns (found: bool)
      modifies this
      ensures Drain(queues, questions, trace)
           == TryPool(env, b, Drain(old(queues), old(questions) - 1, old(trace)), round, pool)
      ensures found == LastClaimed(Drain(queues, questions, trace))
      requires questions >= 1
    {
      queues := env(|trace|, queues);
      var question := questions;
      var admitted := Ask(b);
      var seen := queues.Of(pool);
      trace := trace + [Attempt(round, pool, seen, question, admitted)];
      found := admitted && seen != [];
      if found {
        queues := queues.Without(pool);
      }
    }

    method Round(env: Environment, b: Budget, prefer: Pool, round: nat) returns (end: RoundEnd)
      modifies this
      ensures (Drain(queues, questions, trace), end)
           == OneRound(env, b, prefer, Drain(old(queues), old(questions), old(trace)), round)
    {
      var open := Ask(b);
      if !open { return Closed; }
      var found := Try(env, b, round, prefer);
      if found { return GotWork; }
      open := Ask(b);
      if !open { return Closed; }
      found := Try(env, b, round, Other(prefer));
      return if found then GotWork else Nothing;
    }

    method DrainMonitoringWork(env: Environment, b: Budget, prefer: Pool, limit: int) returns (stop: Stop)
      requires questions == 0 && trace == []
      modifies this
      ensures (Drain(queues, questions, trace), stop) == DrainOnce(env, b, prefer, limit, old(queues))
    {
      var open := Ask(b);
      if !open { return BudgetClosed; }
      var rounds := RoundLimit(limit);
      for round := 0 to rounds
        invariant Rounds(env, b, prefer, Drain(queues, questions, trace), round, rounds)
               == DrainOnce(env, b, prefer, limit, old(queues))
      {
        var end := Round(env, b, prefer, round);
        if end == Closed { return BudgetClosed; }
        if end == Nothing { return NothingFound; }
      }
      return AtLimit;
    }
  }

  // ---- what holds of every drain ------------------------------------------------------------

  /** The attempt at `i` is made under an open budget, and a borrow follows a failed own attempt. */
  ghost predicate Disciplined(b: Budget, prefer: Pool, trace: seq<Attempt>, i: nat)
    requires i < |trace|
  {
    && (trace[i].admitted <==> CanClaim(b, trace[i].question))
    && trace[i].question >= 1 && CanClaim(b, trace[i].question - 1)
    && (trace[i].pool == Other(prefer) ==>
          i > 0 && trace[i - 1].pool == prefer && trace[i - 1].round == trace[i].round && !Claims(trace[i - 1])
          && trace[i - 1].question + 2 == trace[i].question)
  }

  ghost predicate AllDisciplined(b: Budget, prefer: Pool, trace: seq<Attempt>) {
    forall i | 0 <= i < |trace| :: Disciplined(b, prefer, trace, i)
  }

  lemma TryKeepsDiscipline(env: Environment, b: Budget, prefer: Pool, d: Drain, round: nat, pool: Pool)
    requires AllDisciplined(b, prefer, d.trace) && CanClaim(b, d.questions)
    requires pool == Other(prefer) ==> d.trace != [] && var last := d.trace[|d.trace| - 1];
               last.pool == prefer && last.round == round && !Claims(last) && last.question + 1 == d.questions
    ensures AllDisciplined(b, prefer, TryPool(env, b, d, round, pool).trace)
  {
    var trace := TryPool(env, b, d, round, pool).trace;
    forall i | 0 <= i < |trace| ensures Disciplined(b, prefer, trace, i) {
      if i < |d.trace| {
        assert Disciplined(b, prefer, d.trace, i);
      }
    }
  }

  lemma RoundKeepsDiscipline(env: Environment, b: Budget, prefer: Pool, d: Drain, round: nat)
    requires AllDisciplined(b, prefer, d.trace)
    ensures AllDisciplined(b, prefer, OneRound(env, b, prefer, d, round).0.trace)
  {
    if CanClaim(b, d.questions) {
      TryKeepsDiscipline(env, b, prefer, d, round, prefer);
      var d1 := TryPool(env, b, d, round, prefer);
      if !LastClaimed(d1) && CanClaim(b, d1.questions) {
        TryKeepsDiscipline(env, b, prefer, d1, round, Other(prefer));
      }
    }
  }

  lemma {:induction false} RoundsAreDisciplined(
    env: Environment, b: Budget, prefer: Pool, d: Drain, round: nat, limit: nat)
    requires AllDisciplined(b, prefer, d.trace)
    ensures AllDisciplined(b, prefer, Rounds(env, b, prefer, d, round, limit).0.trace)
    decreases limit - round
  {
    if round < limit {
      RoundKeepsDiscipline(env, b, prefer, d, round);
      RoundsAreDisciplined(env, b, prefer, OneRound(env, b, prefer, d, round).0, round + 1, limit);
    }
  }

  /** A claim is made only while the budget is open, at both questions. */
  lemma ClaimsOnlyWhileOpen(env: Environment, b: Budget, prefer: Pool, limit: int, queues: Queues, i: nat)
    requires i < |DrainOnce(env, b, prefer, limit, queues).0.trace|
    ensures var a := DrainOnce(env, b, prefer, limit, queues).0.trace[i];
            Claims(a) ==> a.question >= 1 && CanClaim(b, a.question) && CanClaim(b, a.question - 1)
  {
    RoundsAreDisciplined(env, b, prefer, Drain(queues, 1, []), 0, RoundLimit(limit));
    assert Disciplined(b, prefer, DrainOnce(env, b, prefer, limit, queues).0.trace, i);
  }

  /** Unless admission reopens right after it closed inside a claim, work is borrowed only after the own pool
      was seen empty. */
  lemma BorrowsOnlyWhenOwnIsEmpty(
    env: Environment, b: Budget, prefer: Pool, limit: int, queues: Queues, i: nat)
    requires NeverReopens(b)
    requires var trace := DrainOnce(env, b, prefer, limit, queues).0.trace;
             i < |trace| && trace[i].pool == Other(prefer)
    ensures var trace := DrainOnce(env, b, prefer, limit, queues).0.trace;
            i > 0 && trace[i - 1].pool == prefer && trace[i - 1].round == trace[i].round && trace[i - 1].seen == []
  {
    RoundsAreDisciplined(env, b, prefer, Drain(queues, 1, []), 0, RoundLimit(limit));
    var trace := DrainOnce(env, b, prefer, limit, queues).0.trace;
    assert Disciplined(b, prefer, trace, i) && Disciplined(b, prefer, trace, i - 1);
    var n: nat := trace[i - 1].question - 1;
    assert CanClaim(b, n) && CanClaim(b, n + 2);
  }

  /** The round tries the other pool although its own held work. */
  ghost predicate BorrowsEarly(env: Environment, b: Budget, prefer: Pool, d: Drain, round: nat) {
    var d1 := OneRound(env, b, prefer, d, round).0;
    |d1.trace| == |d.trace| + 2 && d1.trace[|d.trace|].seen != []
  }

  /** And exactly then it can: from any state a round borrows early, for some contents of the pools, if and
      only if admission is open, closed inside the claim, and open again. */
  lemma BorrowsEarlyExactlyWhenAdmissionReopens(b: Budget, prefer: Pool, d: Drain, round: nat)
    ensures (exists env :: BorrowsEarly(env, b, prefer, d, round)) <==>
            CanClaim(b, d.questions) && !CanClaim(b, d.questions + 1) && CanClaim(b, d.questions + 2)
  {
    var full: Environment := (n: nat, q: Queues) => Queues([0], [0]);
    if CanClaim(b, d.questions) && !CanClaim(b, d.questions + 1) && CanClaim(b, d.questions + 2) {
      assert BorrowsEarly(full, b, prefer, d, round);
    }
  }

  // ---- why a drain stops -----------------------------------------------------------------------

  /** The rounds that ended in a claim. */
  function ClaimCount(trace: seq<Attempt>): nat {
    if trace == [] then 0
    else ClaimCount(trace[..|trace| - 1]) + if Claims(trace[|trace| - 1]) then 1 else 0
  }

  lemma TryCounts(env: Environment, b: Budget, d: Drain, round: nat, pool: Pool)
    ensures var d1 := TryPool(env, b, d, round, pool);
            ClaimCount(d1.trace) == ClaimCount(d.trace) + if LastClaimed(d1) then 1 else 0
  {
    var trace := TryPool(env, b, d, round, pool).trace;
    assert trace[..|d.trace|] == d.trace;
  }

  /** The last two attempts of a drain that found nothing: own pool first, then the other. */
  ghost predicate FoundNothing(b: Budget, prefer: Pool, trace: seq<Attempt>) {
    && |trace| >= 2
    && var own, other := trace[|trace| - 2], trace[|trace| - 1];
    && own.pool == prefer && other.pool == Other(prefer) && own.round == other.round
    && !Claims(own) && !Claims(other)
  }

  /** From `d` to `d'`: one claim per round if and only if no round ended without one. */
  ghost predicate Counted(d: Drain, d': Drain, full: bool, rounds: nat) {
    var gained := ClaimCount(d'.trace) - ClaimCount(d.trace);
    if full then gained == rounds else gained < rounds
  }

  lemma RoundCounts(env: Environment, b: Budget, prefer: Pool, d: Drain, round: nat)
    ensures var (d1, end) := OneRound(env, b, prefer, d, round);
            Counted(d, d1, end == GotWork, 1) && (end != GotWork ==> ClaimCount(d1.trace) == ClaimCount(d.trace))
  {
    TryCounts(env, b, d, round, prefer);
    TryCounts(env, b, TryPool(env, b, d, round, prefer), round, Other(prefer));
  }

  lemma CountedInSequence(d: Drain, d1: Drain, d2: Drain, full: bool, rounds: nat)
    requires Counted(d, d1, true, 1) && Counted(d1, d2, full, rounds)
    ensures Counted(d, d2, full, rounds + 1)
  {
  }

  lemma {:induction false} RoundsCount(env: Environment, b: Budget, prefer: Pool, d: Drain, round: nat, limit: nat)
    requires round <= limit
    ensures var (d', stop) := Rounds(env, b, prefer, d, round, limit);
            Counted(d, d', stop == AtLimit, limit - round)
    decreases limit - round
  {
    if round < limit {
      RoundCounts(env, b, prefer, d, round);
      var (d1, end) := OneRound(env, b, prefer, d, round);
      if end == GotWork {
        RoundsCount(env, b, prefer, d1, round + 1, limit);
        var (d2, stop) := Rounds(env, b, prefer, d1, round + 1, limit);
        CountedInSequence(d, d1, d2, stop == AtLimit, limit - round - 1);
      }
    }
  }

  /** Why the last round ended. */
  ghost predicate EndExplained(b: Budget, prefer: Pool, d: Drain, stop: Stop) {
    match stop
    case AtLimit => true
    case BudgetClosed => d.questions >= 1 && !CanClaim(b, d.questions - 1)
    case NothingFound => FoundNothing(b, prefer, d.trace)
  }

  lemma RoundIsExplained(env: Environment, b: Budget, prefer: Pool, d: Drain, round: nat)
    ensures var (d1, end) := OneRound(env, b, prefer, d, round);
            && (end == Closed ==> EndExplained(b, prefer, d1, BudgetClosed))
            && (end == Nothing ==> EndExplained(b, prefer, d1, NothingFound))
  {
  }

  lemma {:induction false} StopIsExplained(env: Environment, b: Budget, prefer: Pool, d: Drain, round: nat, limit: nat)
    ensures var (d', stop) := Rounds(env, b, prefer, d, round, limit);
            EndExplained(b, prefer, d', stop)
    decreases limit - round
  {
    if round < limit {
      RoundIsExplained(env, b, prefer, d, round);
      var (d1, end) := OneRound(env, b, prefer, d, round);
      if end == GotWork {
        StopIsExplained(env, b, prefer, d1, round + 1, limit);
      }
    }
  }

  lemma EmptyDrainCounts(d: Drain, full: bool, rounds: nat, queues: Queues)
    requires Counted(Drain(queues, 1, []), d, full, rounds)
    ensures full <==> ClaimCount(d.trace) == rounds
  {
  }

  /** A drain claims its full limit unless the budget was seen closed or nothing was found. */
  lemma StopsForAReason(env: Environment, b: Budget, prefer: Pool, limit: int, queues: Queues)
    ensures var (d, stop) := DrainOnce(env, b, prefer, limit, queues);
            && (stop == AtLimit <==> ClaimCount(d.trace) == RoundLimit(limit))
            && EndExplained(b, prefer, d, stop)
  {
    if CanClaim(b, 0) {
      RoundsCount(env, b, prefer, Drain(queues, 1, []), 0, RoundLimit(limit));
      StopIsExplained(env, b, prefer, Drain(queues, 1, []), 0, RoundLimit(limit));
      var (d, stop) := DrainOnce(env, b, prefer, limit, queues);
      EmptyDrainCounts(d, stop == AtLimit, RoundLimit(limit), queues);
    }
  }

  /** Unless admission reopens that way, finding nothing means both pools were seen empty, or the
      budget closed during the last look. */
  lemma NothingFoundMeansEmpty(env: Environment, b: Budget, prefer: Pool, limit: int, queues: Queues)
    requires NeverReopens(b) && DrainOnce(env, b, prefer, limit, queues).1 == NothingFound
    ensures var trace := DrainOnce(env, b, prefer, limit, queues).0.trace;
            && |trace| >= 2
            && trace[|trace| - 2].pool == prefer && trace[|trace| - 2].seen == []
            && trace[|trace| - 1].pool == Other(prefer)
            && (trace[|trace| - 1].seen == [] || !CanClaim(b, trace[|trace| - 1].question))
  {
    StopsForAReason(env, b, prefer, limit, queues);
    RoundsAreDisciplined(env, b, prefer, Drain(queues, 1, []), 0, RoundLimit(limit));
    var trace := DrainOnce(env, b, prefer, limit, queues).0.trace;
    BorrowsOnlyWhenOwnIsEmpty(env, b, prefer, limit, queues, |trace| - 1);
    assert Disciplined(b, prefer, trace, |trace| - 1);
  }

  // ---- the preferred pool leads ---------------------------------------------------------------

  /** The items claimed from `pool`, in order. */
  function ClaimedFrom(trace: seq<Attempt>, pool: Pool): seq<nat> {
    if trace == [] then []
    else
      var last := trace[|trace| - 1];
      ClaimedFrom(trace[..|trace| - 1], pool) + if Claims(last) && last.pool == pool then [last.seen[0]] else []
  }

  /** Others may add work anywhere and take reconcile work, but nobody takes from `pool`. */
  ghost predicate Leaves(env: Environment, pool: Pool) {
    forall n: nat, q: Queues :: q.Of(pool) <= env(n, q).Of(pool)
  }

  function Min(a: nat, b: nat): nat { if a < b then a else b }

  /** What has been claimed from `pool`, and what still waits there. */
  function Backlog(d: Drain, pool: Pool): seq<nat> {
    ClaimedFrom(d.trace, pool) + d.queues.Of(pool)
  }

  /** An attempt on `pool` takes its oldest item; an attempt elsewhere leaves it alone. */
  lemma TryServes(env: Environment, b: Budget, d: Drain, round: nat, tried: Pool, pool: Pool)
    requires Leaves(env, pool) && CanClaim(b, d.questions + 1)
    ensures var d1 := TryPool(env, b, d, round, tried);
            && Backlog(d, pool) <= Backlog(d1, pool)
            && ClaimedFrom(d.trace, pool) <= ClaimedFrom(d1.trace, pool)
            && |ClaimedFrom(d1.trace, pool)| == |ClaimedFrom(d.trace, pool)|
                 + (if tried == pool && LastClaimed(d1) then 1 else 0)
            && (tried == pool && !LastClaimed(d1) ==> d1.queues.Of(pool) == [])
  {
    var queues := env(|d.trace|, d.queues);
    var d1 := TryPool(env, b, d, round, tried);
    assert d.queues.Of(pool) <= queues.Of(pool);
    assert d1.trace[..|d.trace|] == d.trace;
    var before := ClaimedFrom(d.trace, pool);
    assert before + d.queues.Of(pool) <= before + queues.Of(pool);
    if tried == pool && LastClaimed(d1) {
      assert queues.Of(pool) == [queues.Of(pool)[0]] + d1.queues.Of(pool);
      assert before + queues.Of(pool) == (before + [queues.Of(pool)[0]]) + d1.queues.Of(pool);
    } else {
      assert before + [] == before;
    }
  }

  /** From `d` to `d'`, in `rounds` rounds: served in order, and either everything or one per round. */
  ghost predicate Served(d: Drain, d': Drain, prefer: Pool, rounds: nat) {
    && Backlog(d, prefer) <= Backlog(d', prefer)
    && ClaimedFrom(d.trace, prefer) <= ClaimedFrom(d'.trace, prefer)
    && (|ClaimedFrom(d'.trace, prefer)| >= |ClaimedFrom(d.trace, prefer)| + rounds
        || Backlog(d, prefer) <= ClaimedFrom(d'.trace, prefer))
  }

  lemma ServedInSequence(d: Drain, d1: Drain, d2: Drain, prefer: Pool, rounds: nat)
    requires Served(d, d1, prefer, 1) && Served(d1, d2, prefer, rounds)
    ensures Served(d, d2, prefer, rounds + 1)
  {
  }

  /** A round serves one waiting item of the preferred pool, or leaves nothing of it to serve. */
  lemma RoundServes(env: Environment, b: Budget, prefer: Pool, d: Drain, round: nat)
    requires Leaves(env, prefer) && forall n: nat :: CanClaim(b, n)
    ensures var (d1, end) := OneRound(env, b, prefer, d, round);
            && end != Closed && Served(d, d1, prefer, 1)
            && (end == Nothing ==> Backlog(d, prefer) <= ClaimedFrom(d1.trace, prefer))
  {
    TryServes(env, b, d, round, prefer, prefer);
    var d1 := TryPool(env, b, d, round, prefer);
    if !LastClaimed(d1) {
      assert Backlog(d1, prefer) == ClaimedFrom(d1.trace, prefer);
      TryServes(env, b, d1, round, Other(prefer), prefer);
    }
  }

  lemma {:induction false} PreferredLeads(env: Environment, b: Budget, prefer: Pool, d: Drain, round: nat, limit: nat)
    requires Leaves(env, prefer) && (forall n: nat :: CanClaim(b, n)) && round <= limit
    ensures Served(d, Rounds(env, b, prefer, d, round, limit).0, prefer, limit - round)
    decreases limit - round
  {
    if round < limit {
      RoundServes(env, b, prefer, d, round);
      var (d1, end) := OneRound(env, b, prefer, d, round);
      if end == GotWork {
        PreferredLeads(env, b, prefer, d1, round + 1, limit);
        ServedInSequence(d, d1, Rounds(env, b, prefer, d1, round + 1, limit).0, prefer, limit - round - 1);
      }
    }
  }

  /** While the budget stays open, a drain serves its preferred pool first, in order: at least
      min(rounds, waiting items) of it, however full the other pool is kept. */
  lemma PreferredPoolIsServed(env: Environment, b: Budget, prefer: Pool, limit: int, queues: Queues)
    requires Leaves(env, prefer) && forall n: nat :: CanClaim(b, n)
    ensures var k := Min(RoundLimit(limit), |queues.Of(prefer)|);
            queues.Of(prefer)[..k] <= ClaimedFrom(DrainOnce(env, b, prefer, limit, queues).0.trace, prefer)
  {
    var d := Drain(queues, 1, []);
    PreferredLeads(env, b, prefer, d, 0, RoundLimit(limit));
    assert Backlog(d, prefer) == queues.Of(prefer);
  }
}
