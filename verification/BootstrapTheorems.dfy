/** What the bootstrap protocol guarantees on every schedule of every set of processes. */
module BootstrapTheorems {
  import opened Options
  import opened BootstrapStore
  import opened BootstrapProtocol

  function TablesAfter(steps: seq<Step>): Tables {
    Run(INITIAL, steps).tables
  }

  function StartedSet(t: Tables): set<nat> {
    set id | id in t.receipts && t.receipts[id].status == Started
  }

  predicate IsAdjudicated(t: Tables, id: nat) {
    t.recoveries.Some? && id in t.recoveries.value
  }

  lemma Anatomy(steps: seq<Step>) returns (o: nat)
    ensures Fenced(TablesAfter(steps))
    ensures TablesAfter(steps).recoveries.Some? ==> AdjudicatedAt(TablesAfter(steps), o)
  {
    ReachableInv(steps);
    o := 0;
    if TablesAfter(steps).recoveries.Some? {
      o :| AdjudicatedAt(TablesAfter(steps), o);
    }
  }

  // ---- exclusion -------------------------------------------------------------

  /** An adjudicated original is never committed, so it and its replacement never both are. */
  lemma OriginalAndReplacementNeverBothCommitted(steps: seq<Step>, o: nat)
    requires IsAdjudicated(TablesAfter(steps), o)
    ensures var t := TablesAfter(steps);
            var replacement := t.recoveries.value[o].replacement;
            && StartedAt(t, o)
            && replacement.operationId != o
            && !(t.receipts[o].status == Committed && IdentityCommitted(t, replacement))
  {
    var o' := Anatomy(steps);
  }

  /** Both orders of the race: adjudicated first stays uncommitted, committed first stays unadjudicated. */
  lemma RaceIsDecidedOnce(steps: seq<Step>, more: seq<Step>, id: nat)
    requires id in TablesAfter(steps).receipts
    ensures id in TablesAfter(steps + more).receipts
    ensures IsAdjudicated(TablesAfter(steps), id) ==>
              TablesAfter(steps + more).receipts[id] == TablesAfter(steps).receipts[id]
              && TablesAfter(steps + more).recoveries == TablesAfter(steps).recoveries
    ensures TablesAfter(steps).receipts[id].status == Committed ==> !IsAdjudicated(TablesAfter(steps + more), id)
  {
    ReceiptsOnlyAdvance(steps, more);
    var o := Anatomy(steps + more);
  }

  /** A process that paused between its two transactions is refused once its operation is adjudicated. */
  lemma PausedOriginalCannotResume(steps: seq<Step>, more: seq<Step>, p: nat, g: Probe, acked: bool)
    requires var w := Run(INITIAL, steps + more);
             w.PcOf(p).AtInstall? && IsAdjudicated(TablesAfter(steps), w.PcOf(p).b.operationId)
    ensures TablesAfter(steps + more + [Install(p, g, acked)]) == TablesAfter(steps + more)
    ensures Run(INITIAL, steps + more + [Install(p, g, acked)]).PcOf(p).Finished?
  {
    ReachableInv(steps + more);
    ReceiptsOnlyAdvance(steps, more);
    var all := steps + more + [Install(p, g, acked)];
    assert all[..|all| - 1] == steps + more;
  }

  // ---- counts ----------------------------------------------------------------

  lemma AtMostOneElement(s: set<nat>)
    requires forall i, j :: i in s && j in s ==> i == j
    ensures |s| <= 1
  {
    if s != {} {
      var x :| x in s;
      assert s == {x};
    }
  }

  lemma PendingCounts(steps: seq<Step>)
    ensures var t := TablesAfter(steps);
            && |set id | id in t.receipts && t.receipts[id].status == Started && !IsAdjudicated(t, id)| <= 1
            && (t.recoveries.Some? ==> |t.recoveries.value| == 1)
            && |StartedSet(t)| <= 2
            && (|StartedSet(t)| == 2 ==> exists o :: o in StartedSet(t) && IsAdjudicated(t, o))
  {
    var t := TablesAfter(steps);
    var o := Anatomy(steps);
    var unresolved := set id | id in t.receipts && t.receipts[id].status == Started && !IsAdjudicated(t, id);
    forall i, j | i in unresolved && j in unresolved ensures i == j {
      assert StartedAt(t, i) && StartedAt(t, j);
    }
    AtMostOneElement(unresolved);
    if t.recoveries.Some? {
      assert |t.recoveries.value| == |t.recoveries.value.Keys|;
      assert StartedSet(t) == unresolved + {o};
      assert o in StartedSet(t) && IsAdjudicated(t, o);
    } else {
      assert StartedSet(t) == unresolved;
    }
  }

  lemma AdjudicationStep(w: World, s: Step, o: nat)
    requires Inv(w) && !IsAdjudicated(w.tables, o) && IsAdjudicated(Next(w, s).tables, o)
    ensures w.tables.receipts.Keys == {o}
  {
    assert s.Recover?;
    assert RecoverTx(w.tables, s.b, s.req, s.g).0 != w.tables;
    SingletonKeys(w.tables.receipts, s.req.original.operationId);
  }

  /** The adjudicated receipt is the first that was ever recorded: it is in every nonempty past table. */
  lemma {:induction false} AdjudicatedIsFirstEver(steps: seq<Step>, o: nat, k: nat)
    requires k <= |steps|
    requires IsAdjudicated(TablesAfter(steps), o)
    ensures TablesAfter(steps[..k]).receipts == map[] || o in TablesAfter(steps[..k]).receipts
    decreases |steps|
  {
    if k == |steps| {
      assert steps[..k] == steps;
      var o' := Anatomy(steps);
    } else {
      var prefix := steps[..|steps| - 1];
      assert steps[..k] == prefix[..k];
      if IsAdjudicated(TablesAfter(prefix), o) {
        AdjudicatedIsFirstEver(prefix, o, k);
      } else {
        ReachableInv(prefix);
        AdjudicationStep(Run(INITIAL, prefix), steps[|steps| - 1], o);
        assert prefix == prefix[..k] + prefix[k..];
        ReceiptsOnlyAdvance(prefix[..k], prefix[k..]);
        assert TablesAfter(prefix[..k]).receipts.Keys <= {o};
        if o !in TablesAfter(prefix[..k]).receipts {
          assert TablesAfter(prefix[..k]).receipts.Keys == {};
        }
      }
    }
  }

  // ---- the fence is exact -----------------------------------------------------

  /** Whether a fresh operation may record a start, in terms of what the operator can see. */
  ghost predicate Licensed(t: Tables, b: Bundle) {
    if t.recoveries.None? then StartedSet(t) == {}
    else forall o | o in t.recoveries.value ::
           if IdentityCommitted(t, t.recoveries.value[o].replacement) then StartedSet(t) == {o}
           else IdentityOf(b) == t.recoveries.value[o].replacement
  }

  lemma FenceIsExact(steps: seq<Step>, b: Bundle, g: Probe)
    requires g.targetMatches && !g.lockBusy
    ensures StartTx(TablesAfter(steps), b, g).1 == StartRecorded
       <==> b.operationId !in TablesAfter(steps).receipts && Licensed(TablesAfter(steps), b)
  {
    var t := TablesAfter(steps);
    var o := Anatomy(steps);
    if b.operationId !in t.receipts {
      if t.recoveries.None? {
        assert Pending(t, b) == StartedSet(t);
      } else {
        assert forall id :: id in Pending(t, b) ==> StartedAt(t, id);
        assert StartedAt(t, o) && Resolves(t, o);
        var row := t.recoveries.value[o];
        if IdentityCommitted(t, row.replacement) {
          assert Pending(t, b) == StartedSet(t) - {o};
        } else if IdentityOf(b) == row.replacement {
          assert t.receipts.Keys == {o};
          assert Pending(t, b) == {};
        } else {
          assert o in Pending(t, b);
        }
      }
    }
  }

  /** The licensed replacement is never locked out: two accepted transactions finish it. */
  lemma LicensedReplacementCanFinish(steps: seq<Step>, o: nat, p: nat, b: Bundle, g: Probe)
    requires IsAdjudicated(TablesAfter(steps), o)
    requires IdentityOf(b) == TablesAfter(steps).recoveries.value[o].replacement
    requires b.operationId !in TablesAfter(steps).receipts
    requires Run(INITIAL, steps).PcOf(p) == AtStart
    requires g.targetMatches && !g.lockBusy && g.metadataMatches && g.failingBatch == |b.batches|
    ensures var t := TablesAfter(steps + [Apply(p, b, g, true), Install(p, g, true)]);
            IdentityCommitted(t, IdentityOf(b)) && t.installed == TablesAfter(steps).installed + Entries(b)
  {
    var o' := Anatomy(steps);
    FenceIsExact(steps, b, g);
    var one := steps + [Apply(p, b, g, true)];
    var two := steps + [Apply(p, b, g, true), Install(p, g, true)];
    assert one[..|one| - 1] == steps && two[..|two| - 1] == one;
    assert Run(INITIAL, one) == Next(Run(INITIAL, steps), Apply(p, b, g, true));
    assert Run(INITIAL, one).PcOf(p) == AtInstall(b);
    assert Run(INITIAL, two) == Next(Run(INITIAL, one), Install(p, g, true));
  }

  // ---- receipts and the log ---------------------------------------------------

  /** Over any stretch of any schedule: identities never change, status only moves to committed,
      an adjudication is permanent, and the log only grows. */
  lemma ReceiptsOnlyAdvance(steps: seq<Step>, more: seq<Step>)
    ensures Advances(TablesAfter(steps), TablesAfter(steps + more))
  {
    ReachableInv(steps);
    RunSplit(INITIAL, steps, more);
    RunKeepsInv(Run(INITIAL, steps), more);
  }

  /** The entries of one operation in the log. */
  function Project(log: seq<Installed>, id: nat): seq<Installed> {
    if log == [] then []
    else Project(log[..|log| - 1], id)
         + if log[|log| - 1].operationId == id then [log[|log| - 1]] else []
  }

  lemma {:induction false} ProjectConcat(a: seq<Installed>, b: seq<Installed>, id: nat)
    ensures Project(a + b, id) == Project(a, id) + Project(b, id)
    decreases |b|
  {
    if b == [] {
      assert a + b == a;
    } else {
      assert (a + b)[..|a + b| - 1] == a + b[..|b| - 1];
      ProjectConcat(a, b[..|b| - 1], id);
    }
  }

  lemma {:induction false} ProjectOneOperation(log: seq<Installed>, owner: nat, id: nat)
    requires forall i :: 0 <= i < |log| ==> log[i].operationId == owner
    ensures Project(log, id) == if owner == id then log else []
  {
    if log != [] {
      ProjectOneOperation(log[..|log| - 1], owner, id);
      assert log == log[..|log| - 1] + [log[|log| - 1]];
    }
  }

  lemma {:induction false} ProjectFlatten(t: Tables, order: seq<nat>, id: nat)
    requires WellKeyed(t) && forall x :: x in order ==> x in t.receipts
    requires forall i, j :: 0 <= i < j < |order| ==> order[i] != order[j]
    ensures Project(Flatten(t, order), id) == if id in order then Entries(t.receipts[id].fingerprint) else []
  {
    if order != [] {
      var init, last := order[..|order| - 1], order[|order| - 1];
      assert order == init + [last];
      assert last !in init;
      ProjectFlatten(t, init, id);
      var entries := Entries(t.receipts[last].fingerprint);
      ProjectConcat(Flatten(t, init), entries, id);
      ProjectOneOperation(entries, last, id);
    }
  }

  /** The log holds each committed operation whole, once, and nothing of any other operation;
      whole operations follow one another. */
  lemma LogIsExactlyTheCommittedReceipts(steps: seq<Step>, id: nat)
    ensures var t := TablesAfter(steps);
            && (exists order :: LogExplainedBy(t, order))
            && Project(t.installed, id)
               == if id in t.receipts && t.receipts[id].status == Committed
                  then Entries(t.receipts[id].fingerprint) else []
  {
    ReachableInv(steps);
    var t := TablesAfter(steps);
    var order :| LogExplainedBy(t, order);
    ProjectFlatten(t, order, id);
  }

  /** A successful reconcile is durable evidence: the exact batches took effect once, and
      nothing any process does later adds to them. */
  lemma ReconcileIsEvidence(steps: seq<Step>, more: seq<Step>, b: Bundle, g: Probe)
    requires Reconcile(TablesAfter(steps), b, g) == ReadBack
    ensures Project(TablesAfter(steps + more).installed, b.operationId) == Entries(b)
    ensures ReceiptOf(TablesAfter(steps + more), b) == Found(Committed)
  {
    ReceiptsOnlyAdvance(steps, more);
    LogIsExactlyTheCommittedReceipts(steps + more, b.operationId);
  }

  // ---- recovery can be repeated -------------------------------------------------

  /** Once a recovery committed, acknowledged or not, the same request succeeds at any later
      time, whatever the clock, sessions and schema then are, and writes nothing. */
  lemma RecoverIsRepeatable(before: seq<Step>, s: Step, more: seq<Step>, later: Probe)
    requires s.Recover? && Run(INITIAL, before).PcOf(s.p) == AtStart
    requires RecoverTx(TablesAfter(before), s.b, s.req, s.g).1 == Adjudicated
    requires later.targetMatches && !later.lockBusy
    ensures var t := TablesAfter(before + [s] + more);
            RecoverTx(t, s.b, s.req, later) == (t, Adjudicated)
  {
    var steps := before + [s];
    assert steps[..|steps| - 1] == before;
    assert TablesAfter(steps) == RecoverTx(TablesAfter(before), s.b, s.req, s.g).0;
    RecoverEstablishes(TablesAfter(before), s.b, s.req, s.g);
    ReceiptsOnlyAdvance(steps, more);
    var o := Anatomy(steps);
  }

  /** The read-only lookup says MATCHING exactly when repeating the request is a harmless success. */
  lemma MatchingMeansRepeatable(t: Tables, b: Bundle, req: RecoveryRequest, g: Probe)
    requires g.targetMatches
    ensures ReconcileRecovery(t, b, req, g) == MatchingReport
       <==> forall later: Probe | later.targetMatches && !later.lockBusy ::
              RecoverTx(t, b, req, later) == (t, Adjudicated)
  {
    var expired := g.(lockBusy := false, now := req.expiresAt);
    assert RecoverTx(t, b, req, expired) == (t, Adjudicated) ==> ReconcileRecovery(t, b, req, g) == MatchingReport;
  }

  // ---- acknowledged commits are observed ------------------------------------------

  /** Whatever ran in between, the read-back after an acknowledged commit fails only for the
      reasons that concern the target or its metadata. */
  lemma AcknowledgedCommitIsObserved(steps: seq<Step>, p: nat, g: Probe)
    ensures var w := Run(INITIAL, steps);
            && (w.PcOf(p).AtReconcile? ==>
                  (Reconcile(w.tables, w.PcOf(p).b, g) == ReadBack <==> g.targetMatches && g.metadataMatches))
            && (w.PcOf(p).AtRecoverReadback? ==>
                  (RecoverReadback(w.tables, w.PcOf(p).req, g) == Adjudicated <==> g.targetMatches))
            && (w.PcOf(p).AtInstall? ==> ReceiptOf(w.tables, w.PcOf(p).b) == Found(Started))
  {
    ReachableInv(steps);
    var w := Run(INITIAL, steps);
    assert p in w.procs ==> ProcessMatches(w.tables, w.procs[p]);
  }

  // ---- what each step decides, in every reachable state --------------------------------------

  lemma RunOneMore(steps: seq<Step>, s: Step)
    ensures Run(INITIAL, steps + [s]) == Next(Run(INITIAL, steps), s)
  {
    assert (steps + [s])[..|steps|] == steps;
  }

  /** A process that reaches its second transaction installs its operation exactly when the target, lock and
      metadata are right, no batch fails and the operation was not adjudicated; otherwise nothing changes. */
  lemma InstallDecides(steps: seq<Step>, p: nat, g: Probe, acked: bool)
    requires Run(INITIAL, steps).PcOf(p).AtInstall?
    ensures var b := Run(INITIAL, steps).PcOf(p).b;
      var t, v := TablesAfter(steps), Run(INITIAL, steps + [Install(p, g, acked)]);
      var installs := g.targetMatches && !g.lockBusy && g.metadataMatches && g.failingBatch >= |b.batches|
                      && !IsAdjudicated(t, b.operationId);
      if installs then Carries(v.tables, b, Committed) && v.PcOf(p) == (if acked then AtReconcile(b) else Dead)
      else v.tables == t && v.PcOf(p).Finished? && v.PcOf(p).outcome.Refused?
  {
    ReachableInv(steps);
    RunOneMore(steps, Install(p, g, acked));
    var w := Run(INITIAL, steps);
    assert ProcessMatches(w.tables, w.procs[p]);
    CompletesExactlyWhen(w.tables, w.PcOf(p).b, g);
  }

  /** A new process records its start exactly when it may, and reads a committed operation back exactly with its
      metadata. */
  lemma ApplyDecides(steps: seq<Step>, p: nat, b: Bundle, g: Probe, acked: bool)
    requires Run(INITIAL, steps).PcOf(p) == AtStart
    ensures var t, v := TablesAfter(steps), Run(INITIAL, steps + [Apply(p, b, g, acked)]);
      if Startable(t, b, g) then Carries(v.tables, b, Started) && v.PcOf(p) == (if acked then AtInstall(b) else Dead)
      else
        && v.tables == t
        && (v.PcOf(p) == Finished(ReadBack) <==>
              g.targetMatches && !g.lockBusy && Carries(t, b, Committed) && g.metadataMatches && acked)
  {
    ReachableInv(steps);
    RunOneMore(steps, Apply(p, b, g, acked));
    StartsExactlyWhen(TablesAfter(steps), b, g);
  }

  /** A new process adjudicates exactly on the recorded adjudication or on evidence in force. */
  lemma RecoverDecides(steps: seq<Step>, p: nat, b: Bundle, req: RecoveryRequest, g: Probe, acked: bool)
    requires Run(INITIAL, steps).PcOf(p) == AtStart
    ensures var t, v := TablesAfter(steps), Run(INITIAL, steps + [Recover(p, b, req, g, acked)]);
      if Recoverable(t, b, req, g) && (Recorded(t, req) || Evidenced(t, req, g))
      then Recorded(v.tables, req) && v.PcOf(p) == (if acked then AtRecoverReadback(b, req) else Dead)
      else v.tables == t && v.PcOf(p).Finished? && v.PcOf(p).outcome.Refused?
  {
    RunOneMore(steps, Recover(p, b, req, g, acked));
    AdjudicatesExactlyWhen(TablesAfter(steps), b, req, g);
  }

  /** A process that reads its commit back reports it exactly when target and metadata are right. */
  lemma ReadBackDecides(steps: seq<Step>, p: nat, g: Probe)
    requires var pc := Run(INITIAL, steps).PcOf(p); pc.AtReconcile? || pc.AtRecoverReadback?
    ensures var w, v := Run(INITIAL, steps), Run(INITIAL, steps + [ReadBackStep(p, g)]);
      && v.tables == w.tables && v.PcOf(p).Finished?
      && (w.PcOf(p).AtReconcile? ==> (v.PcOf(p).outcome == ReadBack <==> g.targetMatches && g.metadataMatches))
      && (w.PcOf(p).AtRecoverReadback? ==> (v.PcOf(p).outcome == Adjudicated <==> g.targetMatches))
  {
    RunOneMore(steps, ReadBackStep(p, g));
    AcknowledgedCommitIsObserved(steps, p, g);
  }
}
