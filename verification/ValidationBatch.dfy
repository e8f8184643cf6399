/**
 The cooperative worker pool that validates scenarios.

 Workers interleave only where the source awaits a run, so one step is the code
 between two awaits: a worker's first turn, or the handling of one reply and the
 turn that follows. Pool size, number of scenarios, replies, stop signals and
 the order in which workers move are all arbitrary.
 */
module ValidationBatch {

  datatype Case = Queued | Running | Finished | Error | Skipped

  /** A worker that has not had its first turn, awaits scenario `index`, or has returned. */
  datatype Worker = Ready | Awaiting(index: nat) | Exited

  datatype Code = UnconfirmedValidation | OtherCode

  datatype Reply = Success | Failure(status: int, code: Code)

  /** A lost response, a refused credential or the explicit code: the run may still be going on. */
  predicate LeavesUnconfirmed(reply: Reply) {
    match reply
    case Success => false
    case Failure(status, code) => status == 0 || status == 401 || status == 403 || code == UnconfirmedValidation
  }

  /** One call of `onUpdate`. */
  datatype Update = Update(index: nat, state: Case)

  datatype Batch = Batch(
    cases: seq<Case>, next: nat, unconfirmed: bool, stopped: bool, workers: seq<Worker>, updates: seq<Update>)

  datatype Verdict = Completed | Stopped | Unconfirmed

  function QueuedUpdates(count: nat): (r: seq<Update>)
    ensures |r| == count
  {
    seq(count, i requires 0 <= i < count => Update(i, Queued))
  }

  function Initial(count: nat, concurrency: nat): Batch {
    Batch(seq(count, i => Queued), 0, false, false,
          seq(if concurrency < count then concurrency else count, w => Ready), QueuedUpdates(count))
  }

  function Record(b: Batch, i: nat, state: Case): Batch
    requires i < |b.cases|
  {
    b.(cases := b.cases[i := state], updates := b.updates + [Update(i, state)])
  }

  /** The top of the loop, up to the next await or the return. */
  function Turn(b: Batch, w: nat, stop: bool): Batch
    requires w < |b.workers|
  {
    if b.next >= |b.cases| then b.(workers := b.workers[w := Exited])
    else if b.unconfirmed || stop then b.(stopped := true, workers := b.workers[w := Exited])
    else Record(b, b.next, Running).(next := b.next + 1, workers := b.workers[w := Awaiting(b.next)])
  }

  datatype Step = Begin(w: nat, stop: bool) | Resume(w: nat, reply: Reply, stop: bool)

  function Next(b: Batch, s: Step): Batch {
    if s.w >= |b.workers| then b
    else match s
      case Begin(w, stop) => if b.workers[w] == Ready then Turn(b, w, stop) else b
      case Resume(w, reply, stop) =>
        if !b.workers[w].Awaiting? || b.workers[w].index >= |b.cases| then b
        else
          var state := if reply == Success then Finished else Error;
          var handled := Record(b, b.workers[w].index, state)
                         .(unconfirmed := b.unconfirmed || LeavesUnconfirmed(reply));
          Turn(handled, w, stop)
  }

  function Run(b: Batch, steps: seq<Step>): Batch {
    if steps == [] then b else Next(Run(b, steps[..|steps| - 1]), steps[|steps| - 1])
  }

  predicate AllExited(b: Batch) {
    forall w | 0 <= w < |b.workers| :: b.workers[w] == Exited
  }

  /** After the pool drains: everything not started is skipped, and the verdict is returned. */
  function SkipRest(b: Batch): Batch
    decreases |b.cases| - b.next
  {
    if b.next >= |b.cases| then b
    else SkipRest(Record(b, b.next, Skipped).(next := b.next + 1))
  }

  function VerdictOf(b: Batch): Verdict {
    if b.unconfirmed then Unconfirmed else if b.stopped then Stopped else Completed
  }

  /** The skip of each scenario from the first to the one before `end`, in order. */
  function SkippedFrom(first: nat, end: nat): seq<Update> {
    if end <= first then [] else SkippedFrom(first, end - 1) + [Update(end - 1, Skipped)]
  }

  // ---- the pool with its shared variables --------------------------------------------

  class Pool {
    var cases: seq<Case>
    var next: nat
    var unconfirmed: bool
    var stopped: bool
    var workers: seq<Worker>
    var updates: seq<Update>

    function Value(): Batch
      reads this
    {
      Batch(cases, next, unconfirmed, stopped, workers, updates)
    }

    constructor (count: nat, concurrency: nat)
      ensures Value() == Initial(count, concurrency)
      ensures |workers| == (if concurrency < count then concurrency else count) && |cases| == count && next == 0
      ensures (forall w | 0 <= w < |workers| :: workers[w] == Ready) && !unconfirmed && !stopped
      ensures |updates| == count && forall i | 0 <= i < count :: cases[i] == Queued && updates[i] == Update(i, Queued)
    {
      cases := seq(count, i => Queued);
      next, unconfirmed, stopped := 0, false, false;
      workers := seq(if concurrency < count then concurrency else count, w => Ready);
      new;
      updates := [];
      for i := 0 to count
        invariant updates == QueuedUpdates(count)[..i]
        invariant cases == seq(count, i => Queued) && next == 0 && !unconfirmed && !stopped
        invariant workers == seq(if concurrency < count then concurrency else count, w => Ready)
      {
        updates := updates + [Update(i, Queued)];
      }
    }

    method TakeTurn(w: nat, stop: bool)
      requires w < |workers|
      modifies this
      ensures Value() == Turn(old(Value()), w, stop)
      ensures next > old(next) <==> old(next) < |old(cases)| && !old(unconfirmed) && !stop
      ensures stopped <==> old(stopped) || (old(next) < |old(cases)| && (old(unconfirmed) || stop))
      ensures workers == old(workers)[w := if next > old(next) then Awaiting(old(next)) else Exited]
    {
      if next < |cases| {
        if unconfirmed || stop {
          stopped := true;
          workers := workers[w := Exited];
          return;
        }
        var scenario := next;
        next := next + 1;
        cases := cases[scenario := Running];
        updates := updates + [Update(scenario, Running)];
        workers := workers[w := Awaiting(scenario)];
        return;
      }
      workers := workers[w := Exited];
    }

    method HandleReply(w: nat, reply: Reply, stop: bool)
      requires w < |workers| && workers[w].Awaiting? && workers[w].index < |cases|
      modifies this
      ensures Value() == Next(old(Value()), Resume(w, reply, stop))
      ensures unconfirmed <==>
                || old(unconfirmed)
                || (reply.Failure? && (reply.status in {0, 401, 403} || reply.code == UnconfirmedValidation))
      ensures cases[old(workers)[w].index] ==
                if old(workers)[w].index == old(next) && next > old(next) then Running
                else if reply == Success then Finished else Error
    {
      var i := workers[w].index;
      if reply == Success {
        cases := cases[i := Finished];
        updates := updates + [Update(i, Finished)];
      } else {
        cases := cases[i := Error];
        updates := updates + [Update(i, Error)];
        if LeavesUnconfirmed(reply) {
          unconfirmed := true;
        }
      }
      TakeTurn(w, stop);
    }

    method Finish() returns (verdict: Verdict)
      modifies this
      ensures Value() == SkipRest(old(Value())).(next := old(next))
      ensures verdict == VerdictOf(old(Value()))
      ensures verdict == if old(unconfirmed) then Unconfirmed else if old(stopped) then Stopped else Completed
      ensures |cases| == |old(cases)|
      ensures forall i | 0 <= i < |cases| :: cases[i] == if old(next) <= i then Skipped else old(cases)[i]
      ensures updates == old(updates) + SkippedFrom(old(next), |old(cases)|)
    {
      ghost var final := SkipRest(Value());
      var i: nat := next;
      while i < |cases|
        invariant unconfirmed == old(unconfirmed) && stopped == old(stopped) && next == old(next)
        invariant SkipRest(Value().(next := i)) == final
        invariant |cases| == |old(cases)| && old(next) <= i && (i <= |cases| || i == old(next))
        invariant forall k | 0 <= k < |cases| :: cases[k] == if old(next) <= k < i then Skipped else old(cases)[k]
        invariant updates == old(updates) + SkippedFrom(old(next), i)
        decreases |cases| - i
      {
        cases := cases[i := Skipped];
        updates := updates + [Update(i, Skipped)];
        i := i + 1;
      }
      verdict := if unconfirmed then Unconfirmed else if stopped then Stopped else Completed;
    }
  }

  // ---- what a step decides ---------------------------------------------------------------

  /** A worker whose turn it is. */
  predicate MayMove(b: Batch, s: Step) {
    && s.w < |b.workers|
    && match s
       case Begin(w, _) => b.workers[w] == Ready
       case Resume(w, _, _) => b.workers[w].Awaiting? && b.workers[w].index < |b.cases|
  }

  /** A worker whose turn it is records its answer, then starts the next scenario exactly if one is left, nothing is
      unconfirmed and no stop is set; else it returns, and notes the stop exactly if work is left. A worker whose turn
      it is not does nothing. */
  lemma StepDecides(b: Batch, s: Step)
    ensures var v := Next(b, s);
      if !MayMove(b, s) then v == b
      else
        var answered := if s.Begin? then b.updates
                        else b.updates + [Update(b.workers[s.w].index, if s.reply == Success then Finished else Error)];
        var unconfirmed := b.unconfirmed || (s.Resume? && LeavesUnconfirmed(s.reply));
        && v.unconfirmed == unconfirmed
        && (if b.next < |b.cases| && !unconfirmed && !s.stop then
              && v.next == b.next + 1 && v.workers == b.workers[s.w := Awaiting(b.next)] && v.stopped == b.stopped
              && v.updates == answered + [Update(b.next, Running)]
            else
              && v.next == b.next && v.workers == b.workers[s.w := Exited] && v.updates == answered
              && v.stopped == (b.stopped || b.next < |b.cases|))
  {
  }

  // ---- invariant -------------------------------------------------------------------------

  /** The states scenario `i` went through, in order. */
  function History(updates: seq<Update>, i: nat): seq<Case> {
    if updates == [] then []
    else History(updates[..|updates| - 1], i)
         + if updates[|updates| - 1].index == i then [updates[|updates| - 1].state] else []
  }

  /** The scenarios in the order in which they were started. */
  function Started(updates: seq<Update>): seq<nat> {
    if updates == [] then []
    else Started(updates[..|updates| - 1])
         + if updates[|updates| - 1].state == Running then [updates[|updates| - 1].index] else []
  }

  function UpTo(n: nat): (r: seq<nat>)
    ensures |r| == n
  {
    seq(n, i => i)
  }

  ghost predicate LifeOf(state: Case, history: seq<Case>, started: bool) {
    match state
    case Queued => !started && history == [Queued]
    case Running => started && history == [Queued, Running]
    case Finished => started && history == [Queued, Running, Finished]
    case Error => started && history == [Queued, Running, Error]
    case Skipped => false
  }

  ghost predicate Lives(b: Batch) {
    && b.next <= |b.cases|
    && Started(b.updates) == UpTo(b.next)
    && forall i | 0 <= i < |b.cases| :: LifeOf(b.cases[i], History(b.updates, i), i < b.next)
  }

  /** Apart from the worker `skip` (none if it is out of range), running scenarios and awaiting
      workers correspond one to one. */
  ghost predicate Paired(b: Batch, skip: nat) {
    && (forall w | 0 <= w < |b.workers| && w != skip && b.workers[w].Awaiting? ::
          b.workers[w].index < |b.cases| && b.cases[b.workers[w].index] == Running)
    && (forall w, v | 0 <= w < v < |b.workers| && w != skip && v != skip
                      && b.workers[w].Awaiting? && b.workers[v].Awaiting? ::
          b.workers[w].index != b.workers[v].index)
    && (forall i | 0 <= i < |b.cases| && b.cases[i] == Running ::
          exists w :: 0 <= w < |b.workers| && w != skip && b.workers[w] == Awaiting(i))
  }

  /** Workers return early only after the pool was told to stop. */
  ghost predicate NobodyLeft(b: Batch) {
    !b.stopped && b.next < |b.cases| ==> forall w | 0 <= w < |b.workers| :: b.workers[w] != Exited
  }

  ghost predicate Inv(b: Batch) {
    Lives(b) && Paired(b, |b.workers|) && NobodyLeft(b)
  }

  lemma HistoryAppend(updates: seq<Update>, u: Update, i: nat)
    ensures History(updates + [u], i) == History(updates, i) + if u.index == i then [u.state] else []
  {
    assert (updates + [u])[..|updates|] == updates;
  }

  lemma StartedAppend(updates: seq<Update>, u: Update)
    ensures Started(updates + [u]) == Started(updates) + if u.state == Running then [u.index] else []
  {
    assert (updates + [u])[..|updates|] == updates;
  }

  lemma RecordKeepsLives(b: Batch, i: nat, state: Case, next: nat)
    requires Lives(b) && i < |b.cases|
    requires (state == Running && b.cases[i] == Queued && i == b.next && next == i + 1)
          || ((state == Finished || state == Error) && b.cases[i] == Running && next == b.next)
    ensures Lives(Record(b, i, state).(next := next))
  {
    var c := Record(b, i, state).(next := next);
    StartedAppend(b.updates, Update(i, state));
    forall j | 0 <= j < |b.cases| ensures LifeOf(c.cases[j], History(c.updates, j), j < next) {
      HistoryAppend(b.updates, Update(i, state), j);
      assert LifeOf(b.cases[j], History(b.updates, j), j < b.next);
    }
  }

  lemma TurnKeepsInv(b: Batch, w: nat, stop: bool)
    requires w < |b.workers| && b.workers[w] != Exited && Lives(b) && Paired(b, w) && NobodyLeft(b)
    ensures Inv(Turn(b, w, stop))
  {
    var c := Turn(b, w, stop);
    if b.next < |b.cases| && !(b.unconfirmed || stop) {
      assert LifeOf(b.cases[b.next], History(b.updates, b.next), false);
      RecordKeepsLives(b, b.next, Running, b.next + 1);
      assert c.workers[w] == Awaiting(b.next);
      forall i | 0 <= i < |c.cases| && c.cases[i] == Running
        ensures exists v :: 0 <= v < |c.workers| && v != |c.workers| && c.workers[v] == Awaiting(i)
      {
        if i != b.next {
          var v :| 0 <= v < |b.workers| && v != w && b.workers[v] == Awaiting(i);
          assert c.workers[v] == Awaiting(i);
        }
      }
      assert Lives(c) && NobodyLeft(c);
    } else {
      forall i | 0 <= i < |c.cases| && c.cases[i] == Running
        ensures exists v :: 0 <= v < |c.workers| && v != |c.workers| && c.workers[v] == Awaiting(i)
      {
        var v :| 0 <= v < |b.workers| && v != w && b.workers[v] == Awaiting(i);
        assert c.workers[v] == Awaiting(i);
      }
    }
  }

  lemma HandlingKeepsInv(b: Batch, w: nat, state: Case, unconfirmed: bool)
    requires Inv(b) && w < |b.workers| && b.workers[w].Awaiting? && b.workers[w].index < |b.cases|
    requires state == Finished || state == Error
    ensures var c := Record(b, b.workers[w].index, state).(unconfirmed := unconfirmed);
            Lives(c) && Paired(c, w) && NobodyLeft(c)
  {
    var i := b.workers[w].index;
    RecordKeepsLives(b, i, state, b.next);
    var c := Record(b, i, state).(unconfirmed := unconfirmed);
    forall j | 0 <= j < |c.cases| && c.cases[j] == Running
      ensures exists v :: 0 <= v < |c.workers| && v != w && c.workers[v] == Awaiting(j)
    {
      var v :| 0 <= v < |b.workers| && v != |b.workers| && b.workers[v] == Awaiting(j);
      assert c.workers[v] == Awaiting(j) && v != w;
    }
  }

  lemma NextKeepsInv(b: Batch, s: Step)
    requires Inv(b)
    ensures Inv(Next(b, s)) && |Next(b, s).workers| == |b.workers| && |Next(b, s).cases| == |b.cases|
  {
    if s.w < |b.workers| {
      match s {
        case Begin(w, stop) =>
          if b.workers[w] == Ready {
            SkipReady(b, w);
            TurnKeepsInv(b, w, stop);
          }
        case Resume(w, reply, stop) =>
          if b.workers[w].Awaiting? {
            var state := if reply == Success then Finished else Error;
            var unconfirmed := b.unconfirmed || LeavesUnconfirmed(reply);
            HandlingKeepsInv(b, w, state, unconfirmed);
            TurnKeepsInv(Record(b, b.workers[w].index, state).(unconfirmed := unconfirmed), w, stop);
          }
      }
    }
  }

  lemma SkipReady(b: Batch, w: nat)
    requires w < |b.workers| && b.workers[w] == Ready && Paired(b, |b.workers|)
    ensures Paired(b, w)
  {
    forall i | 0 <= i < |b.cases| && b.cases[i] == Running
      ensures exists v :: 0 <= v < |b.workers| && v != w && b.workers[v] == Awaiting(i)
    {
      var v :| 0 <= v < |b.workers| && v != |b.workers| && b.workers[v] == Awaiting(i);
    }
  }

  lemma {:induction false} InitialHistory(count: nat, upTo: nat, i: nat)
    requires upTo <= count
    ensures History(QueuedUpdates(count)[..upTo], i) == if i < upTo then [Queued] else []
    ensures Started(QueuedUpdates(count)[..upTo]) == []
  {
    if upTo > 0 {
      assert QueuedUpdates(count)[..upTo][..upTo - 1] == QueuedUpdates(count)[..upTo - 1];
      InitialHistory(count, upTo - 1, i);
    }
  }

  lemma InitialInv(count: nat, concurrency: nat)
    ensures Inv(Initial(count, concurrency))
  {
    var b := Initial(count, concurrency);
    assert b.updates[..count] == b.updates;
    assert forall w | 0 <= w < |b.workers| :: b.workers[w] == Ready;
    assert forall i | 0 <= i < count :: b.cases[i] == Queued;
    InitialHistory(count, count, 0);
    forall i | 0 <= i < count ensures LifeOf(b.cases[i], History(b.updates, i), i < 0) {
      InitialHistory(count, count, i);
    }
  }

  lemma {:induction false} RunKeepsInv(count: nat, concurrency: nat, steps: seq<Step>)
    ensures var b := Run(Initial(count, concurrency), steps);
            Inv(b) && |b.cases| == count && |b.workers| == if concurrency < count then concurrency else count
    decreases |steps|
  {
    InitialInv(count, concurrency);
    if steps != [] {
      RunKeepsInv(count, concurrency, steps[..|steps| - 1]);
      NextKeepsInv(Run(Initial(count, concurrency), steps[..|steps| - 1]), steps[|steps| - 1]);
    }
  }

  // ---- theorems ------------------------------------------------------------------------------

  function Reached(count: nat, concurrency: nat, steps: seq<Step>): Batch {
    Run(Initial(count, concurrency), steps)
  }

  /** While the pool runs, every scenario is on its way queued, running, finished or error, and the
      scenarios were started once each, in order. */
  lemma ScenariosAdvanceInOrder(count: nat, concurrency: nat, steps: seq<Step>, i: nat)
    requires i < count
    ensures var b := Reached(count, concurrency, steps);
            && Started(b.updates) == UpTo(b.next)
            && |b.cases| == count
            && History(b.updates, i) <= [Queued, Running, b.cases[i]]
            && (b.cases[i] == Finished || b.cases[i] == Error ==>
                  History(b.updates, i) == [Queued, Running, b.cases[i]])
            && (History(b.updates, i) == [Queued] <==> b.next <= i)
  {
    RunKeepsInv(count, concurrency, steps);
    var b := Reached(count, concurrency, steps);
    assert LifeOf(b.cases[i], History(b.updates, i), i < b.next);
  }

  /** The scenarios that some worker awaits. */
  function AwaitedBy(workers: seq<Worker>): (r: set<nat>)
    ensures forall i :: i in r <==> exists w :: 0 <= w < |workers| && workers[w] == Awaiting(i)
  {
    set w | 0 <= w < |workers| && workers[w].Awaiting? :: workers[w].index
  }

  lemma {:induction false} AwaitedFits(workers: seq<Worker>)
    ensures |AwaitedBy(workers)| <= |workers|
  {
    if workers != [] {
      var init, last := workers[..|workers| - 1], workers[|workers| - 1];
      AwaitedFits(init);
      var one: set<nat> := if last.Awaiting? then {last.index} else {};
      forall i ensures i in AwaitedBy(workers) <==> i in AwaitedBy(init) + one {
        if i in AwaitedBy(init) {
          var w :| 0 <= w < |init| && init[w] == Awaiting(i);
          assert workers[w] == Awaiting(i);
        }
        if last == Awaiting(i) {
          assert workers[|workers| - 1] == Awaiting(i);
        }
        if i in AwaitedBy(workers) {
          var w :| 0 <= w < |workers| && workers[w] == Awaiting(i);
          assert w < |init| ==> init[w] == Awaiting(i);
        }
      }
      assert AwaitedBy(workers) == AwaitedBy(init) + one;
    }
  }

  /** The running scenarios are exactly the awaited ones, so never more than the pool size. */
  lemma RunningNeverExceedsThePool(count: nat, concurrency: nat, steps: seq<Step>)
    ensures var b := Reached(count, concurrency, steps);
            && (set i | 0 <= i < |b.cases| && b.cases[i] == Running) == AwaitedBy(b.workers)
            && |set i | 0 <= i < |b.cases| && b.cases[i] == Running| <= concurrency
  {
    RunKeepsInv(count, concurrency, steps);
    var b := Reached(count, concurrency, steps);
    AwaitedFits(b.workers);
    var running := set i | 0 <= i < |b.cases| && b.cases[i] == Running;
    forall i ensures i in running <==> i in AwaitedBy(b.workers) {
      if i in running {
        var w :| 0 <= w < |b.workers| && w != |b.workers| && b.workers[w] == Awaiting(i);
      }
    }
    assert running == AwaitedBy(b.workers);
  }

  lemma {:induction false} RunSplit(b: Batch, first: seq<Step>, rest: seq<Step>)
    ensures Run(b, first + rest) == Run(Run(b, first), rest)
    decreases |rest|
  {
    if rest == [] {
      assert first + rest == first;
    } else {
      assert (first + rest)[..|first + rest| - 1] == first + rest[..|rest| - 1];
      RunSplit(b, first, rest[..|rest| - 1]);
    }
  }

  /** After an unconfirmed error nothing more is started, however long the pool goes on. */
  lemma {:induction false} NothingStartsAfterUnconfirmed(b: Batch, steps: seq<Step>)
    requires b.unconfirmed
    ensures Run(b, steps).unconfirmed && Run(b, steps).next == b.next
    ensures Started(Run(b, steps).updates) == Started(b.updates)
    decreases |steps|
  {
    if steps != [] {
      var v, s := Run(b, steps[..|steps| - 1]), steps[|steps| - 1];
      NothingStartsAfterUnconfirmed(b, steps[..|steps| - 1]);
      NothingStartsNext(v, s);
    }
  }

  lemma NothingStartsNext(b: Batch, s: Step)
    requires b.unconfirmed
    ensures Next(b, s).unconfirmed && Next(b, s).next == b.next && Started(Next(b, s).updates) == Started(b.updates)
  {
    if s.Resume? && s.w < |b.workers| && b.workers[s.w].Awaiting? {
      StartedAppend(b.updates, Update(b.workers[s.w].index, if s.reply == Success then Finished else Error));
    }
  }

  predicate UnconfirmedReply(b: Batch, s: Step) {
    s.Resume? && s.w < |b.workers| && b.workers[s.w].Awaiting? && LeavesUnconfirmed(s.reply)
  }

  /** Some step of the run handled an unconfirmed error. */
  predicate HandledUnconfirmed(count: nat, concurrency: nat, steps: seq<Step>)
    decreases |steps|
  {
    steps != []
    && (HandledUnconfirmed(count, concurrency, steps[..|steps| - 1])
        || UnconfirmedReply(Reached(count, concurrency, steps[..|steps| - 1]), steps[|steps| - 1]))
  }

  lemma LastReplyDecides(b: Batch, s: Step)
    requires Inv(b)
    ensures Next(b, s).unconfirmed <==> b.unconfirmed || UnconfirmedReply(b, s)
  {
  }

  /** The verdict is `Unconfirmed` exactly when some handled reply was an unconfirmed error. */
  lemma {:induction false} UnconfirmedHasACause(count: nat, concurrency: nat, steps: seq<Step>)
    ensures VerdictOf(Reached(count, concurrency, steps)) == Unconfirmed
       <==> HandledUnconfirmed(count, concurrency, steps)
    decreases |steps|
  {
    if steps != [] {
      var init := steps[..|steps| - 1];
      UnconfirmedHasACause(count, concurrency, init);
      RunKeepsInv(count, concurrency, init);
      LastReplyDecides(Reached(count, concurrency, init), steps[|steps| - 1]);
    }
  }

  // ---- the end of a batch --------------------------------------------------------------------

  lemma {:induction false} SkipRestHistory(b: Batch, i: nat)
    requires i < |b.cases|
    ensures |SkipRest(b).cases| == |b.cases|
    ensures SkipRest(b).cases[i] == if b.next <= i then Skipped else b.cases[i]
    ensures History(SkipRest(b).updates, i) == History(b.updates, i) + if b.next <= i then [Skipped] else []
    decreases |b.cases| - b.next
  {
    if b.next < |b.cases| {
      HistoryAppend(b.updates, Update(b.next, Skipped), i);
      SkipRestHistory(Record(b, b.next, Skipped).(next := b.next + 1), i);
    }
  }

  /** When every worker has returned, each scenario was either run to an answer or skipped. */
  lemma EveryScenarioEndsOnce(count: nat, concurrency: nat, steps: seq<Step>, i: nat)
    requires i < count && AllExited(Reached(count, concurrency, steps))
    ensures var b := Reached(count, concurrency, steps);
            var final := SkipRest(b);
            && |final.cases| == count
            && ((History(final.updates, i) == [Queued, Running, final.cases[i]] && final.cases[i] in {Finished, Error})
                || (History(final.updates, i) == [Queued, Skipped] && final.cases[i] == Skipped))
            && (final.cases[i] == Skipped <==> b.next <= i)
  {
    RunKeepsInv(count, concurrency, steps);
    var b := Reached(count, concurrency, steps);
    SkipRestHistory(b, i);
    assert LifeOf(b.cases[i], History(b.updates, i), i < b.next);
  }

  /** `Completed` is only ever reported when nothing was skipped. */
  lemma CompletedSkipsNothing(count: nat, concurrency: nat, steps: seq<Step>)
    requires concurrency >= 1 && AllExited(Reached(count, concurrency, steps))
    requires VerdictOf(Reached(count, concurrency, steps)) == Completed
    ensures Reached(count, concurrency, steps).next == count
  {
    RunKeepsInv(count, concurrency, steps);
    var b := Reached(count, concurrency, steps);
    if count > 0 {
      assert b.workers[0] == Exited;
    }
  }

  /** The stop signal, once seen set, is never seen clear again. */
  ghost predicate StopIsSticky(steps: seq<Step>) {
    forall i, j | 0 <= i < j < |steps| :: steps[i].stop ==> steps[j].stop
  }

  lemma {:induction false} StoppedLeavesWork(count: nat, concurrency: nat, steps: seq<Step>)
    requires StopIsSticky(steps)
    ensures var b := Reached(count, concurrency, steps);
            b.stopped && !b.unconfirmed ==> steps != [] && steps[|steps| - 1].stop && b.next < |b.cases|
    decreases |steps|
  {
    if steps != [] {
      StoppedLeavesWork(count, concurrency, steps[..|steps| - 1]);
      RunKeepsInv(count, concurrency, steps[..|steps| - 1]);
    }
  }

  /** With a sticky stop signal the verdict is `Stopped` exactly when something was skipped and
      no reply was unconfirmed. */
  lemma StoppedMeansSkipped(count: nat, concurrency: nat, steps: seq<Step>)
    requires concurrency >= 1 && StopIsSticky(steps) && AllExited(Reached(count, concurrency, steps))
    ensures var b := Reached(count, concurrency, steps);
            VerdictOf(b) == Stopped <==> b.next < count && !b.unconfirmed
  {
    RunKeepsInv(count, concurrency, steps);
    StoppedLeavesWork(count, concurrency, steps);
    var b := Reached(count, concurrency, steps);
    if b.next < count && !b.unconfirmed {
      assert b.workers[0] == Exited;
    }
  }

  /** The step is a turn of a worker, at which work is left. */
  predicate TurnsWithWorkLeft(b: Batch, s: Step) {
    && s.w < |b.workers| && b.next < |b.cases|
    && match s
       case Begin(w, _) => b.workers[w] == Ready
       case Resume(w, _, _) => b.workers[w].Awaiting? && b.workers[w].index < |b.cases|
  }

  /** Some turn saw the stop signal set while work was left. */
  ghost predicate SawStop(b: Batch, steps: seq<Step>) {
    steps != []
    && (SawStop(b, steps[..|steps| - 1])
        || (steps[|steps| - 1].stop && TurnsWithWorkLeft(Run(b, steps[..|steps| - 1]), steps[|steps| - 1])))
  }

  /** The step starts the last scenario. */
  predicate StartsLast(b: Batch, s: Step) {
    b.next < |b.cases| && Next(b, s).next == |b.cases|
  }

  /** Some turn saw the signal set while work was left, and a later turn started the last scenario. */
  ghost predicate SignalBlinked(b: Batch, steps: seq<Step>) {
    steps != []
    && (SignalBlinked(b, steps[..|steps| - 1])
        || (SawStop(b, steps[..|steps| - 1]) && StartsLast(Run(b, steps[..|steps| - 1]), steps[|steps| - 1])))
  }

  lemma StepStops(b: Batch, s: Step)
    requires Inv(b)
    ensures !Next(b, s).unconfirmed ==>
              !b.unconfirmed && (Next(b, s).stopped <==> b.stopped || (s.stop && TurnsWithWorkLeft(b, s)))
    ensures b.next <= Next(b, s).next <= |b.cases| == |Next(b, s).cases|
    ensures s.stop && b.next < |b.cases| ==> Next(b, s).next == b.next
  {
  }

  /** Without an unconfirmed reply, the pool is stopped exactly when some turn saw the signal set while
      work was left; and it was so with nothing left exactly when the signal blinked. */
  lemma {:induction false} StoppedMeansSawStop(count: nat, concurrency: nat, steps: seq<Step>)
    requires !Reached(count, concurrency, steps).unconfirmed
    ensures var b := Reached(count, concurrency, steps);
            && (b.stopped <==> SawStop(Initial(count, concurrency), steps))
            && (b.stopped && b.next == count <==> SignalBlinked(Initial(count, concurrency), steps))
    decreases |steps|
  {
    if steps != [] {
      var init, s := steps[..|steps| - 1], steps[|steps| - 1];
      RunKeepsInv(count, concurrency, init);
      StepStops(Reached(count, concurrency, init), s);
      StoppedMeansSawStop(count, concurrency, init);
    }
  }

  ghost predicate SkipsSomething(b: Batch) {
    exists i | 0 <= i < |SkipRest(b).cases| :: SkipRest(b).cases[i] == Skipped
  }

  lemma SkipsWhatWasNotStarted(count: nat, concurrency: nat, steps: seq<Step>)
    requires AllExited(Reached(count, concurrency, steps))
    ensures SkipsSomething(Reached(count, concurrency, steps)) <==> Reached(count, concurrency, steps).next < count
  {
    RunKeepsInv(count, concurrency, steps);
    var b := Reached(count, concurrency, steps);
    forall i | 0 <= i < count
      ensures |SkipRest(b).cases| == count && (SkipRest(b).cases[i] == Skipped <==> b.next <= i)
    {
      EveryScenarioEndsOnce(count, concurrency, steps, i);
    }
    if b.next < count {
      EveryScenarioEndsOnce(count, concurrency, steps, b.next);
      assert SkipRest(b).cases[b.next] == Skipped;
    } else if count == 0 {
      assert SkipRest(b) == b;
    }
  }

  /** Exactly when `Stopped` is reported although nothing was skipped: the signal blinked. */
  lemma StoppedSkipsNothingExactlyWhenTheSignalBlinks(count: nat, concurrency: nat, steps: seq<Step>)
    requires AllExited(Reached(count, concurrency, steps)) && !Reached(count, concurrency, steps).unconfirmed
    ensures var b := Reached(count, concurrency, steps);
            VerdictOf(b) == Stopped && !SkipsSomething(b) <==> SignalBlinked(Initial(count, concurrency), steps)
  {
    RunKeepsInv(count, concurrency, steps);
    StoppedMeansSawStop(count, concurrency, steps);
    SkipsWhatWasNotStarted(count, concurrency, steps);
  }

  /** Without stickiness that fails: a signal seen once can be reported although all scenarios ran. */
  lemma BlinkingStopSkipsNothing()
    ensures var steps := [Begin(0, false), Begin(1, true), Resume(0, Success, false), Resume(0, Success, false)];
            var b := Reached(2, 2, steps);
            AllExited(b) && VerdictOf(b) == Stopped && b.next == 2
  {
    var s0 := [Begin(0, false)];
    var s1 := s0 + [Begin(1, true)];
    var s2 := s1 + [Resume(0, Success, false)];
    var s3 := s2 + [Resume(0, Success, false)];
    assert s1[..1] == s0 && s2[..2] == s1 && s3[..3] == s2 && s0[..0] == [];
    assert Reached(2, 2, []) == Initial(2, 2);
    assert Reached(2, 2, s0).workers == [Awaiting(0), Ready] && Reached(2, 2, s0).next == 1;
    assert Reached(2, 2, s1).workers == [Awaiting(0), Exited] && Reached(2, 2, s1).stopped;
    assert Reached(2, 2, s2).workers == [Awaiting(1), Exited];
    assert Reached(2, 2, s3).workers == [Exited, Exited];
    assert s3 == [Begin(0, false), Begin(1, true), Resume(0, Success, false), Resume(0, Success, false)];
  }

  // ---- progress --------------------------------------------------------------------------------

  function Load(workers: seq<Worker>): nat {
    if workers == [] then 0
    else Load(workers[..|workers| - 1])
         + match workers[|workers| - 1] case Ready => 2 case Awaiting(_) => 1 case Exited => 0
  }

  function Remaining(b: Batch): int {
    |b.cases| - b.next + Load(b.workers)
  }

  lemma {:induction false} LoadUpdate(workers: seq<Worker>, w: nat, v: Worker)
    requires w < |workers|
    ensures Load(workers[w := v]) - Load([v]) == Load(workers) - Load([workers[w]])
  {
    var last := |workers| - 1;
    assert [v][..0] == [] && [workers[w]][..0] == [];
    if w == last {
      assert workers[w := v][..last] == workers[..last];
    } else {
      assert workers[w := v][..last] == workers[..last][w := v];
      LoadUpdate(workers[..last], w, v);
    }
  }

  /** A worker that has not returned can always move once its run answers, and every move brings
      the end of the batch closer: no schedule runs forever. */
  lemma EveryMoveIsProgress(b: Batch, w: nat, reply: Reply, stop: bool)
    requires Inv(b) && w < |b.workers| && b.workers[w] != Exited
    ensures var s := if b.workers[w] == Ready then Begin(w, stop) else Resume(w, reply, stop);
            0 <= Remaining(Next(b, s)) < Remaining(b)
  {
    LoadUpdate(b.workers, w, Exited);
    LoadUpdate(b.workers, w, Awaiting(b.next));
    assert [Exited][..0] == [] && [Awaiting(b.next)][..0] == [] && [b.workers[w]][..0] == [];
  }

  // ---- the pool is used ------------------------------------------------------------------------

  /** The first turns of the first n workers, in order. */
  function FirstTurns(n: nat): seq<Step> {
    if n == 0 then [] else FirstTurns(n - 1) + [Begin(n - 1, false)]
  }

  /** After their first turns all workers run a scenario each: as many as the pool allows and the batch holds. */
  lemma {:induction false} PoolStartsFull(count: nat, concurrency: nat, n: nat)
    requires n <= concurrency && n <= count
    ensures var b := Reached(count, concurrency, FirstTurns(n));
      && |b.workers| == (if concurrency < count then concurrency else count) && |b.cases| == count
      && b.next == n && !b.unconfirmed && !b.stopped
      && forall w | 0 <= w < |b.workers| :: b.workers[w] == if w < n then Awaiting(w) else Ready
  {
    if n > 0 {
      PoolStartsFull(count, concurrency, n - 1);
      var b, s := Reached(count, concurrency, FirstTurns(n - 1)), Begin(n - 1, false);
      assert FirstTurns(n)[..|FirstTurns(n)| - 1] == FirstTurns(n - 1);
      StepDecides(b, s);
    }
  }
}
