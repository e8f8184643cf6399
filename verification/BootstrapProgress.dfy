/** When the bootstrap can still go on, and exactly when it never will. */
module BootstrapProgress {
  import opened Options
  import opened BootstrapStore
  import opened BootstrapProtocol
  import opened BootstrapTheorems

  /** Some process is about to install this operation. */
  ghost predicate Installing(w: World, id: nat) {
    exists p | p in w.procs :: w.procs[p].AtInstall? && w.procs[p].b.operationId == id
  }

  /** A started operation blocks everyone, nobody will finish it, and it is too late to adjudicate it: an
      adjudication was made already, or another receipt exists. */
  ghost predicate Blocks(w: World, id: nat) {
    && StartedAt(w.tables, id) && !IsAdjudicated(w.tables, id) && !Installing(w, id)
    && (w.tables.recoveries.Some? || w.tables.receipts.Keys != {id})
  }

  ghost predicate Stuck(w: World) {
    exists id :: Blocks(w, id)
  }

  // ---- stuck for good ---------------------------------------------------------------------------

  lemma BlockedStart(t: Tables, id: nat, b: Bundle, g: Probe)
    requires StartedAt(t, id) && !IsAdjudicated(t, id)
    ensures StartTx(t, b, g).0 == t && StartTx(t, b, g).1 != StartRecorded
  {
    assert id in Pending(t, b);
  }

  lemma BlockedInstall(w: World, id: nat, p: nat, g: Probe)
    requires Inv(w) && Blocks(w, id) && w.PcOf(p).AtInstall?
    ensures CompleteTx(w.tables, w.PcOf(p).b, g).0 == w.tables
    ensures CompleteTx(w.tables, w.PcOf(p).b, g).1.Refused?
  {
    var t, b := w.tables, w.PcOf(p).b;
    assert ProcessMatches(t, w.procs[p]) && StartedAt(t, b.operationId) && b.operationId != id;
    if t.recoveries.Some? {
      var o :| AdjudicatedAt(t, o);
      assert o != id;
    }
  }

  lemma BlockedRecover(t: Tables, id: nat, b: Bundle, req: RecoveryRequest, g: Probe)
    requires id in t.receipts && (t.recoveries.Some? || t.receipts.Keys != {id})
    ensures RecoverTx(t, b, req, g).0 == t
  {
    if t.recoveries.None? && |t.receipts| == 1 {
      SingletonKeys(t.receipts, id);
    }
  }

  lemma BlockedApply(w: World, id: nat, p: nat, b: Bundle, g: Probe, acked: bool)
    requires Blocks(w, id)
    ensures Blocks(Next(w, Apply(p, b, g, acked)), id) && Next(w, Apply(p, b, g, acked)).tables == w.tables
  {
    BlockedStart(w.tables, id, b, g);
    NothingNewInstalls(w, Next(w, Apply(p, b, g, acked)), p, id);
  }

  lemma BlockedInstallStep(w: World, id: nat, p: nat, g: Probe, acked: bool)
    requires Inv(w) && Blocks(w, id)
    ensures Blocks(Next(w, Install(p, g, acked)), id) && Next(w, Install(p, g, acked)).tables == w.tables
  {
    if w.PcOf(p).AtInstall? {
      BlockedInstall(w, id, p, g);
    }
    NothingNewInstalls(w, Next(w, Install(p, g, acked)), p, id);
  }

  lemma BlockedRecoverStep(w: World, id: nat, s: Step)
    requires Blocks(w, id) && s.Recover?
    ensures Blocks(Next(w, s), id) && Next(w, s).tables == w.tables
  {
    BlockedRecover(w.tables, id, s.b, s.req, s.g);
    RecoverOutcomes(w.tables, s.b, s.req, s.g);
    NothingNewInstalls(w, Next(w, s), s.p, id);
  }

  lemma BlockedStep(w: World, id: nat, s: Step)
    requires Inv(w) && Blocks(w, id)
    ensures Blocks(Next(w, s), id) && Next(w, s).tables == w.tables
  {
    match s
    case Apply(p, b, g, acked) => BlockedApply(w, id, p, b, g, acked);
    case Install(p, g, acked) => BlockedInstallStep(w, id, p, g, acked);
    case Recover(p, b, req, g, acked) => BlockedRecoverStep(w, id, s);
    case ReadBackStep(p, g) => NothingNewInstalls(w, Next(w, s), p, id);
    case Crash(p) => NothingNewInstalls(w, Next(w, s), p, id);
  }

  lemma NothingNewInstalls(w: World, v: World, p: nat, id: nat)
    requires !Installing(w, id) && (v.PcOf(p).AtInstall? ==> p in w.procs && v.PcOf(p) == w.procs[p])
    requires forall q | q in v.procs && q != p :: q in w.procs && v.procs[q] == w.procs[q]
    ensures !Installing(v, id)
  {
  }

  lemma BlockedNext(steps: seq<Step>, s: Step, id: nat)
    requires Blocks(Run(INITIAL, steps), id)
    ensures Blocks(Run(INITIAL, steps + [s]), id) && TablesAfter(steps + [s]) == TablesAfter(steps)
  {
    ReachableInv(steps);
    BlockedStep(Run(INITIAL, steps), id, s);
    assert (steps + [s])[..|steps|] == steps;
  }

  lemma {:induction false} BlockedForGood(steps: seq<Step>, more: seq<Step>, id: nat)
    requires Blocks(Run(INITIAL, steps), id)
    ensures Blocks(Run(INITIAL, steps + more), id) && TablesAfter(steps + more) == TablesAfter(steps)
    decreases |more|
  {
    if more == [] {
      assert steps + more == steps;
    } else {
      var init, s := more[..|more| - 1], more[|more| - 1];
      BlockedForGood(steps, init, id);
      BlockedNext(steps + init, s, id);
      assert steps + init + [s] == steps + more;
    }
  }

  // ---- otherwise something can happen -----------------------------------------------------------

  lemma {:induction false} SomeOther(s: set<nat>) returns (n: nat)
    ensures forall x | x in s :: x < n
  {
    if s == {} {
      n := 0;
    } else {
      var x :| x in s;
      var m := SomeOther(s - {x});
      n := if x < m then m else x + 1;
      assert forall y | y in s :: y == x || y in s - {x};
    }
  }

  const GOOD := Probe(true, false, true, false, true, "", 0, 0, 0)

  lemma InstallerFinishes(w: World, p: nat)
    requires Inv(w) && p in w.procs && w.procs[p].AtInstall? && !IsAdjudicated(w.tables, w.procs[p].b.operationId)
    ensures Next(w, Install(p, GOOD.(failingBatch := |w.procs[p].b.batches|), true)).tables != w.tables
  {
    var b := w.procs[p].b;
    assert ProcessMatches(w.tables, w.procs[p]);
    var u := CompleteTx(w.tables, b, GOOD.(failingBatch := |b.batches|)).0;
    assert u.receipts[b.operationId].status == Committed;
  }

  /** A lone started receipt can be adjudicated. */
  lemma LoneReceiptIsRecoverable(w: World, id: nat, p: nat) returns (s: Step)
    requires Inv(w) && w.PcOf(p) == AtStart
    requires StartedAt(w.tables, id) && w.tables.receipts.Keys == {id} && w.tables.recoveries.None?
    ensures Next(w, s).tables != w.tables
  {
    var t := w.tables;
    var r, b := t.receipts[id], Bundle(id + 1, "", []);
    var req := RecoveryRequest(Identity(id, r.fingerprint, r.source), r.startedAt, t.receiptsObject.value,
                               IdentityOf(b), Some(""), 0, 1);
    s := Recover(p, b, req, GOOD, true);
    assert |t.receipts.Keys| == |t.receipts|;
    assert OriginalUnchanged(t, req) && Admissible(req, b);
    assert RecoverTx(t, b, req, GOOD).0.recoveries.Some?;
  }

  /** With nothing pending, some operation can be started: the replacement while it is licensed, else any new one. */
  lemma SomethingCanStart(steps: seq<Step>) returns (b: Bundle)
    requires forall id :: StartedAt(TablesAfter(steps), id) ==> IsAdjudicated(TablesAfter(steps), id)
    ensures StartTx(TablesAfter(steps), b, GOOD).1 == StartRecorded
  {
    var t := TablesAfter(steps);
    var o := Anatomy(steps);
    var n := SomeOther(t.receipts.Keys);
    b := Bundle(n, "", []);
    if t.recoveries.Some? && !IdentityCommitted(t, t.recoveries.value[o].replacement) {
      b := t.recoveries.value[o].replacement.fingerprint;
      assert IdentityOf(b) == t.recoveries.value[o].replacement;
      assert !StartedAt(t, b.operationId) && b.operationId !in t.receipts;
      assert Licensed(t, b);
    } else if t.recoveries.Some? {
      assert StartedAt(t, o);
      forall id ensures id in StartedSet(t) <==> id == o {
        assert id in StartedSet(t) ==> StartedAt(t, id);
      }
      assert StartedSet(t) == {o};
      assert Licensed(t, b);
    } else {
      forall id ensures id !in StartedSet(t) {
        assert id in StartedSet(t) ==> StartedAt(t, id);
      }
      assert StartedSet(t) == {};
    }
    FenceIsExact(steps, b, GOOD);
  }

  lemma UnstuckMoves(steps: seq<Step>) returns (s: Step)
    requires !Stuck(Run(INITIAL, steps))
    ensures Next(Run(INITIAL, steps), s).tables != TablesAfter(steps)
  {
    var w := Run(INITIAL, steps);
    ReachableInv(steps);
    var idle := SomeOther(w.procs.Keys);
    if id :| StartedAt(w.tables, id) && !IsAdjudicated(w.tables, id) {
      assert !Blocks(w, id);
      if Installing(w, id) {
        var p :| p in w.procs && w.procs[p].AtInstall? && w.procs[p].b.operationId == id;
        InstallerFinishes(w, p);
        s := Install(p, GOOD.(failingBatch := |w.procs[p].b.batches|), true);
      } else {
        s := LoneReceiptIsRecoverable(w, id, idle);
      }
    } else {
      var b := SomethingCanStart(steps);
      s := Apply(idle, b, GOOD, true);
    }
  }

  /** The bootstrap is stuck, in every schedule and for good, exactly when a started operation without an
      adjudication has no live installer and it is too late to adjudicate it. */
  lemma StuckExactly(steps: seq<Step>)
    ensures Stuck(Run(INITIAL, steps)) <==> forall more :: TablesAfter(steps + more) == TablesAfter(steps)
  {
    if Stuck(Run(INITIAL, steps)) {
      var id :| Blocks(Run(INITIAL, steps), id);
      forall more ensures TablesAfter(steps + more) == TablesAfter(steps) {
        BlockedForGood(steps, more, id);
      }
    } else {
      var s := UnstuckMoves(steps);
      assert (steps + [s])[..|steps|] == steps;
      assert TablesAfter(steps + [s]) != TablesAfter(steps);
    }
  }
}
