/** Attempt by attempt, what a drain of the two pools asks, tries, takes and stops on. */
module DrainTrace {
  import opened PoolDrain

  /** The answer to the n-th budget question. */
  predicate Open(b: Budget, n: nat) {
    match b
    case Unlimited => true
    case Until(deadline, workSeconds, clock) => deadline - clock(n) >= workSeconds
  }

  predicate Took(a: Attempt) {
    a.admitted && |a.seen| > 0
  }

  /** The attempt after `before`: asked in its turn, on the preferred pool unless that was just tried in vain. */
  ghost predicate IsNext(b: Budget, prefer: Pool, before: seq<Attempt>, a: Attempt) {
    && a.question == 2 * |before| + 2 && Open(b, a.question - 1) && (a.admitted <==> Open(b, a.question))
    && if before == [] then a.pool == prefer && a.round == 0
       else
         var last := before[|before| - 1];
         if Took(last) then a.pool == prefer && a.round == last.round + 1
         else last.pool == prefer && a.pool != prefer && a.round == last.round
  }

  ghost predicate InOrder(b: Budget, prefer: Pool, trace: seq<Attempt>) {
    trace == []
    || (&& InOrder(b, prefer, trace[..|trace| - 1])
        && IsNext(b, prefer, trace[..|trace| - 1], trace[|trace| - 1]))
  }

  lemma InOrderOneMore(b: Budget, prefer: Pool, trace: seq<Attempt>, a: Attempt)
    requires InOrder(b, prefer, trace) && IsNext(b, prefer, trace, a)
    ensures InOrder(b, prefer, trace + [a])
  {
    assert (trace + [a])[..|trace|] == trace;
  }

  /** Each attempt follows from the ones before it. */
  lemma {:induction false} EachIsNext(b: Budget, prefer: Pool, trace: seq<Attempt>, i: nat)
    requires InOrder(b, prefer, trace) && i < |trace|
    ensures IsNext(b, prefer, trace[..i], trace[i])
  {
    if i < |trace| - 1 {
      EachIsNext(b, prefer, trace[..|trace| - 1], i);
      assert trace[..|trace| - 1][..i] == trace[..i];
    }
  }

  /** A drain about to begin a round. */
  ghost predicate AtRound(b: Budget, prefer: Pool, d: Drain, round: nat) {
    && InOrder(b, prefer, d.trace) && d.questions == 2 * |d.trace| + 1
    && if d.trace == [] then round == 0
       else Took(d.trace[|d.trace| - 1]) && d.trace[|d.trace| - 1].round + 1 == round
  }

  /** How a drain stands when it has stopped: the last question was closed, or the last attempt was on the other pool
      and in vain. */
  ghost predicate Ended(b: Budget, prefer: Pool, d: Drain, stop: Stop) {
    match stop
    case AtLimit => true
    case BudgetClosed => d.questions == 2 * |d.trace| + 2 && !Open(b, 2 * |d.trace| + 1)
    case NothingFound =>
      && d.questions == 2 * |d.trace| + 1
      && d.trace != [] && d.trace[|d.trace| - 1].pool != prefer && !Took(d.trace[|d.trace| - 1])
  }

  /** One attempt, in its turn. */
  lemma TryInOrder(env: Environment, b: Budget, prefer: Pool, d: Drain, round: nat, pool: Pool)
    requires InOrder(b, prefer, d.trace) && d.questions == 2 * |d.trace| + 1 && Open(b, d.questions)
    requires if d.trace == [] then pool == prefer && round == 0
             else
               var last := d.trace[|d.trace| - 1];
               if Took(last) then pool == prefer && round == last.round + 1
               else last.pool == prefer && pool != prefer && round == last.round
    ensures var d1 := TryPool(env, b, d, round, pool);
      && InOrder(b, prefer, d1.trace) && d1.questions == 2 * |d1.trace| + 1 && |d1.trace| == |d.trace| + 1
      && d1.trace[|d.trace|].pool == pool && d1.trace[|d.trace|].round == round
      && (LastClaimed(d1) <==> Took(d1.trace[|d.trace|]))
  {
    var d1 := TryPool(env, b, d, round, pool);
    InOrderOneMore(b, prefer, d.trace, d1.trace[|d.trace|]);
    assert d1.trace == d.trace + [d1.trace[|d.trace|]];
  }

  lemma OpenIsAsked(b: Budget, n: nat)
    ensures CanClaim(b, n) <==> Open(b, n)
  {
  }

  /** How a round leaves a drain. */
  ghost predicate RoundLeaves(b: Budget, prefer: Pool, round: nat, d: Drain, end: RoundEnd) {
    && InOrder(b, prefer, d.trace)
    && match end
       case GotWork => AtRound(b, prefer, d, round + 1)
       case Closed => Ended(b, prefer, d, BudgetClosed)
       case Nothing => Ended(b, prefer, d, NothingFound)
  }

  /** The second half of a round, after the preferred pool gave nothing. */
  lemma BorrowInOrder(env: Environment, b: Budget, prefer: Pool, d: Drain, round: nat)
    requires InOrder(b, prefer, d.trace) && d.questions == 2 * |d.trace| + 1 && d.trace != []
    requires var last := d.trace[|d.trace| - 1]; !Took(last) && last.pool == prefer && last.round == round
    ensures if Open(b, d.questions) then
              var d1 := TryPool(env, b, d, round, Other(prefer));
              RoundLeaves(b, prefer, round, d1, if LastClaimed(d1) then GotWork else Nothing)
            else RoundLeaves(b, prefer, round, d.(questions := d.questions + 1), Closed)
  {
    if Open(b, d.questions) {
      TryInOrder(env, b, prefer, d, round, Other(prefer));
    }
  }

  lemma RoundInOrder(env: Environment, b: Budget, prefer: Pool, d: Drain, round: nat)
    requires AtRound(b, prefer, d, round)
    ensures var (d1, end) := OneRound(env, b, prefer, d, round); RoundLeaves(b, prefer, round, d1, end)
  {
    OpenIsAsked(b, d.questions);
    if Open(b, d.questions) {
      TryInOrder(env, b, prefer, d, round, prefer);
      var d1 := TryPool(env, b, d, round, prefer);
      if !LastClaimed(d1) {
        OpenIsAsked(b, d1.questions);
        BorrowInOrder(env, b, prefer, d1, round);
      }
    }
  }

  lemma {:induction false} RoundsInOrder(
    env: Environment, b: Budget, prefer: Pool, d: Drain, round: nat, limit: nat)
    requires AtRound(b, prefer, d, round)
    ensures var (d', stop) := Rounds(env, b, prefer, d, round, limit);
      InOrder(b, prefer, d'.trace) && Ended(b, prefer, d', stop)
    decreases limit - round
  {
    if round < limit {
      RoundInOrder(env, b, prefer, d, round);
      var (d1, end) := OneRound(env, b, prefer, d, round);
      if end == GotWork {
        RoundsInOrder(env, b, prefer, d1, round + 1, limit);
      }
    }
  }

  /** Every attempt of a drain is in its turn, was admitted exactly by the answers to its two questions, and goes to the
      other pool only right after the preferred one gave nothing; and the drain ends for the reason it says. A budget
      closed at the very first question leaves everything alone. */
  lemma DrainIsInOrder(env: Environment, b: Budget, prefer: Pool, limit: int, queues: Queues)
    ensures var (d, stop) := DrainOnce(env, b, prefer, limit, queues);
      if Open(b, 0) then InOrder(b, prefer, d.trace) && Ended(b, prefer, d, stop)
      else d == Drain(queues, 1, []) && stop == BudgetClosed
  {
    if Open(b, 0) {
      RoundsInOrder(env, b, prefer, Drain(queues, 1, []), 0, RoundLimit(limit));
    }
  }

  /** A drain stops at its limit exactly when it took that many items: the limit given, at least one, at most
      a hundred. */
  lemma LimitIsTheNumberTaken(env: Environment, b: Budget, prefer: Pool, limit: int, queues: Queues)
    ensures var (d, stop) := DrainOnce(env, b, prefer, limit, queues);
      stop == AtLimit <==> |TakenPlaces(d.trace)| == if limit < 1 then 1 else if limit > 100 then 100 else limit
  {
    TakenAreCounted(DrainOnce(env, b, prefer, limit, queues).0.trace);
    StopsForAReason(env, b, prefer, limit, queues);
  }

  ghost function TakenPlaces(trace: seq<Attempt>): set<nat> {
    set i: nat | i < |trace| && Took(trace[i])
  }

  lemma {:induction false} TakenAreCounted(trace: seq<Attempt>)
    ensures ClaimCount(trace) == |TakenPlaces(trace)|
  {
    if trace == [] {
      assert TakenPlaces(trace) == {};
    } else {
      var init, last: nat := trace[..|trace| - 1], |trace| - 1;
      TakenAreCounted(init);
      if Took(trace[last]) {
        assert TakenPlaces(trace) == TakenPlaces(init) + {last};
      } else {
        assert TakenPlaces(trace) == TakenPlaces(init);
      }
    }
  }

  // ---- nothing is lost --------------------------------------------------------------------------

  /** Nobody else touches the pools. */
  ghost predicate Still(env: Environment) {
    forall n, q :: env(n, q) == q
  }

  lemma TryConserves(env: Environment, b: Budget, d: Drain, round: nat, tried: Pool, pool: Pool)
    requires Still(env)
    ensures Backlog(TryPool(env, b, d, round, tried), pool) == Backlog(d, pool)
  {
    var d1 := TryPool(env, b, d, round, tried);
    assert d1.trace[..|d.trace|] == d.trace;
    var before := ClaimedFrom(d.trace, pool);
    if tried == pool && LastClaimed(d1) {
      assert d.queues.Of(pool) == [d.queues.Of(pool)[0]] + d1.queues.Of(pool);
      assert before + d.queues.Of(pool) == (before + [d.queues.Of(pool)[0]]) + d1.queues.Of(pool);
    } else {
      assert before + [] == before;
    }
  }

  lemma {:induction false} RoundsConserve(
    env: Environment, b: Budget, prefer: Pool, d: Drain, round: nat, limit: nat, pool: Pool)
    requires Still(env)
    ensures Backlog(Rounds(env, b, prefer, d, round, limit).0, pool) == Backlog(d, pool)
    decreases limit - round
  {
    if round < limit {
      var (d1, end) := OneRound(env, b, prefer, d, round);
      var own := TryPool(env, b, d, round, prefer);
      TryConserves(env, b, d, round, prefer, pool);
      TryConserves(env, b, own, round, Other(prefer), pool);
      if end == GotWork {
        RoundsConserve(env, b, prefer, d1, round + 1, limit, pool);
      }
    }
  }

  /** With nobody else at the pools, what a drain took of each, in order, and what it left there are what was there. */
  lemma DrainConserves(env: Environment, b: Budget, prefer: Pool, limit: int, queues: Queues, pool: Pool)
    requires Still(env)
    ensures var d := DrainOnce(env, b, prefer, limit, queues).0;
      queues.Of(pool) == ClaimedFrom(d.trace, pool) + d.queues.Of(pool)
  {
    var d := Drain(queues, 1, []);
    RoundsConserve(env, b, prefer, d, 0, RoundLimit(limit), pool);
    assert Backlog(d, pool) == queues.Of(pool);
  }
}
