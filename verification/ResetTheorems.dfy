/** What the reset guarantees over every history of operators, environment writes and lost commits. */
module ResetTheorems {
  import opened DeletionOrder
  import opened ResetStore
  import opened ResetProtocol

  function DbAfter(cat: Catalogue, w: World, steps: seq<Step>): Db {
    Run(cat, w, steps).db
  }

  function ResetsAfter(cat: Catalogue, w: World, steps: seq<Step>): seq<ReceiptRow> {
    Resets(DbAfter(cat, w, steps).receipts)
  }

  lemma {:induction false} RunSplit(cat: Catalogue, w: World, a: seq<Step>, b: seq<Step>)
    ensures Run(cat, w, a + b) == Run(cat, Run(cat, w, a), b)
    decreases |b|
  {
    if b == [] {
      assert a + b == a;
    } else {
      assert (a + b)[..|a + b| - 1] == a + b[..|b| - 1];
      RunSplit(cat, w, a, b[..|b| - 1]);
    }
  }

  lemma NextGrows(cat: Catalogue, v: World, s: Step)
    ensures Resets(v.db.receipts) <= Resets(Next(cat, v, s).db.receipts)
  {
    if s.Execute? && v.PcOf(s.p).AtReset? && ResetTx(cat, v.db, v.PcOf(s.p).m, s.g).1.Committed? {
      CommitEffect(cat, v.db, v.PcOf(s.p).m, s.g);
    }
  }

  /** The recorded resets only ever grow at the end. */
  lemma {:induction false} ResetsGrow(cat: Catalogue, w: World, steps: seq<Step>, more: seq<Step>)
    ensures ResetsAfter(cat, w, steps) <= ResetsAfter(cat, w, steps + more)
    decreases |more|
  {
    if more == [] {
      assert steps + more == steps;
    } else {
      var init, last := more[..|more| - 1], more[|more| - 1];
      assert (steps + more)[..|steps + more| - 1] == steps + init;
      ResetsGrow(cat, w, steps, init);
      NextGrows(cat, Run(cat, w, steps + init), last);
    }
  }

  // ---- at most once -----------------------------------------------------------------

  /** Step `k` commits the deletions of operation `operationId`. */
  predicate CommitsAt(cat: Catalogue, w: World, steps: seq<Step>, k: nat, operationId: nat) {
    && k < |steps|
    && var v := Run(cat, w, steps[..k]);
    && steps[k].Execute? && steps[k].delivery != LostBeforeCommit
    && v.PcOf(steps[k].p).AtReset? && v.PcOf(steps[k].p).m.operationId == operationId
    && ResetTx(cat, v.db, v.PcOf(steps[k].p).m, steps[k].g).1.Committed?
  }

  /** Once an operation has a reset row, executing it, under any manifest, writes nothing. */
  lemma RecordedOperationWritesNothing(cat: Catalogue, db: Db, r: ReceiptRow, m: Manifest, g: Probe)
    requires r in Resets(db.receipts) && r.operationId == m.operationId
    ensures ResetTx(cat, db, m, g).0 == db
    ensures ResetTx(cat, db, m, g).1.Replayed? || ResetTx(cat, db, m, g).1.Refused?
  {
    RowsOfInResets(db.receipts, m.operationId);
    assert r in RowsOf(db.receipts, m.operationId);
  }

  lemma CommitIsRecorded(cat: Catalogue, w: World, steps: seq<Step>, k: nat, operationId: nat)
    requires CommitsAt(cat, w, steps, k, operationId)
    ensures exists r :: r in ResetsAfter(cat, w, steps[..k + 1]) && r.operationId == operationId
  {
    var v := Run(cat, w, steps[..k]);
    assert steps[..k + 1][..k] == steps[..k];
    CommitEffect(cat, v.db, v.PcOf(steps[k].p).m, steps[k].g);
    var db' := ResetTx(cat, v.db, v.PcOf(steps[k].p).m, steps[k].g).0;
    assert db'.receipts[|db'.receipts| - 1] in Resets(db'.receipts);
  }

  /** No operation's deletions commit twice, whatever retries, races and lost acknowledgements occur. */
  lemma DeletionsCommitAtMostOnce(cat: Catalogue, w: World, steps: seq<Step>, i: nat, j: nat, operationId: nat)
    requires i < j && CommitsAt(cat, w, steps, i, operationId)
    ensures !CommitsAt(cat, w, steps, j, operationId)
  {
    if j < |steps| {
      CommitIsRecorded(cat, w, steps, i, operationId);
      var r :| r in ResetsAfter(cat, w, steps[..i + 1]) && r.operationId == operationId;
      assert steps[..j] == steps[..i + 1] + steps[i + 1..j];
      ResetsGrow(cat, w, steps[..i + 1], steps[i + 1..j]);
      var v := Run(cat, w, steps[..j]);
      if steps[j].Execute? && v.PcOf(steps[j].p).AtReset? && v.PcOf(steps[j].p).m.operationId == operationId {
        RecordedOperationWritesNothing(cat, v.db, r, v.PcOf(steps[j].p).m, steps[j].g);
      }
    }
  }

  // ---- epochs ------------------------------------------------------------------------

  lemma EpochIsLast(cat: Catalogue, w: World, steps: seq<Step>)
    requires Start(w)
    ensures Chained(w.db.control.epoch, ResetsAfter(cat, w, steps))
    ensures DbAfter(cat, w, steps).control.epoch
         == Epochs(w.db.control.epoch, ResetsAfter(cat, w, steps))[|ResetsAfter(cat, w, steps)|]
  {
    RunKeepsInv(cat, w, steps);
  }

  /** The control epoch never returns to an earlier value: equal epochs mean no reset in between. */
  lemma EpochNeverReturns(cat: Catalogue, w: World, steps: seq<Step>, more: seq<Step>)
    requires Start(w)
    ensures DbAfter(cat, w, steps).control.epoch == DbAfter(cat, w, steps + more).control.epoch
       <==> ResetsAfter(cat, w, steps) == ResetsAfter(cat, w, steps + more)
  {
    EpochIsLast(cat, w, steps);
    EpochIsLast(cat, w, steps + more);
    ResetsGrow(cat, w, steps, more);
    var first, a, b := w.db.control.epoch, ResetsAfter(cat, w, steps), ResetsAfter(cat, w, steps + more);
    ResetsAreResets(DbAfter(cat, w, steps).receipts);
    assert Epochs(first, a) == Epochs(first, b)[..|a| + 1] by {
      assert forall i | 0 <= i < |a| :: a[i] == b[i];
    }
    if |a| < |b| {
      assert Epochs(first, b)[|a|] != Epochs(first, b)[|b|];
    } else {
      assert a == b;
    }
  }

  /** The second, independent fence: a manifest planned before a reset can never match again. */
  lemma StaleManifestNeverCommits(cat: Catalogue, w: World, steps: seq<Step>, more: seq<Step>, m: Manifest, g: Probe)
    requires Start(w)
    requires m.snapshot.control.epoch == DbAfter(cat, w, steps).control.epoch
    requires ResetsAfter(cat, w, steps) != ResetsAfter(cat, w, steps + more)
    ensures !ResetTx(cat, DbAfter(cat, w, steps + more), m, g).1.Committed?
  {
    EpochNeverReturns(cat, w, steps, more);
  }

  // ---- accounting ----------------------------------------------------------------------

  /** The row counts in a receipt add up to the approved snapshot, table by table. */
  ghost predicate Accounted(cat: Catalogue, r: ReceiptRow) {
    && r.ResetRow?
    && var before := r.manifest.snapshot;
    && r.receipt.deleted.Keys == Cleared(cat) + {cat.receiptTable}
    && (forall n | n in Cleared(cat) :: n in before.rows && r.receipt.deleted[n] == |before.rows[n]|)
    && r.receipt.retained.Keys == (Preserved(cat) * before.rows.Keys) + {cat.receiptTable}
    && (forall n | n in Preserved(cat) && n in before.rows :: r.receipt.retained[n] == |before.rows[n]|)
    && r.receipt.deleted[cat.receiptTable] + r.receipt.retained[cat.receiptTable] == |before.receipts|
  }

  lemma ReceiptIsAccounted(cat: Catalogue, db: Db, m: Manifest, now: int)
    requires WellNamed(cat) && Cleared(cat) <= db.rows.Keys && db == m.snapshot
    ensures Accounted(cat, ResetRow(m.newEpoch, m.operationId, m, ReceiptFor(cat, db, m, now)))
  {
    var r := ReceiptFor(cat, db, m, now);
    assert Counts(db.rows, Cleared(cat)).Keys == Cleared(cat);
    assert Counts(db.rows, Preserved(cat)).Keys == Preserved(cat) * db.rows.Keys;
  }

  lemma CommitAccounts(cat: Catalogue, db: Db, m: Manifest, g: Probe)
    requires WellNamed(cat) && ResetTx(cat, db, m, g).1.Committed?
    ensures var db' := ResetTx(cat, db, m, g).0;
            && Accounted(cat, db'.receipts[|db'.receipts| - 1])
            && db'.rows.Keys == db.rows.Keys
            && (forall n | n in Cleared(cat) :: db'.rows[n] == [])
            && (forall n | n in db.rows && n !in Cleared(cat) :: db'.rows[n] == db.rows[n])
            && db'.receipts[..|db'.receipts| - 1] == Kept(db.receipts)
            && |db'.receipts| == db'.receipts[|db'.receipts| - 1].receipt.retained[cat.receiptTable] + 1
  {
    ReceiptIsAccounted(cat, db, m, g.now);
    assert ResetTx(cat, db, m, g).0 == AfterReset(cat, db, m, g.now);
  }

  predicate Commits(cat: Catalogue, v: World, s: Step) {
    s.Execute? && v.PcOf(s.p).AtReset? && ResetTx(cat, v.db, v.PcOf(s.p).m, s.g).1.Committed?
  }

  lemma OnlyCommitsAddResets(cat: Catalogue, v: World, s: Step)
    requires !Commits(cat, v, s)
    ensures Resets(Next(cat, v, s).db.receipts) == Resets(v.db.receipts)
  {
  }

  lemma CommittedIsAccounted(cat: Catalogue, db: Db, m: Manifest, g: Probe, r: ReceiptRow)
    requires WellNamed(cat) && ResetTx(cat, db, m, g).1.Committed?
    requires r in Resets(ResetTx(cat, db, m, g).0.receipts) && r !in Resets(db.receipts)
    ensures Accounted(cat, r)
  {
    CommitEffect(cat, db, m, g);
    CommitAccounts(cat, db, m, g);
  }

  /** What a step adds to the recorded resets is accounted for. */
  lemma NewResetIsAccounted(cat: Catalogue, v: World, s: Step, r: ReceiptRow)
    requires WellNamed(cat) && r in Resets(Next(cat, v, s).db.receipts) && r !in Resets(v.db.receipts)
    ensures Accounted(cat, r)
  {
    if Commits(cat, v, s) {
      CommittedIsAccounted(cat, v.db, v.PcOf(s.p).m, s.g, r);
    } else {
      OnlyCommitsAddResets(cat, v, s);
    }
  }

  /** Every reset ever recorded accounts for exactly the state its manifest approved. */
  lemma {:induction false} EveryResetIsAccounted(cat: Catalogue, w: World, steps: seq<Step>, r: ReceiptRow)
    requires WellNamed(cat) && Start(w) && r in ResetsAfter(cat, w, steps)
    ensures Accounted(cat, r)
    decreases |steps|
  {
    if steps != [] {
      var init := steps[..|steps| - 1];
      if r in ResetsAfter(cat, w, init) {
        EveryResetIsAccounted(cat, w, init, r);
      } else {
        NewResetIsAccounted(cat, Run(cat, w, init), steps[|steps| - 1], r);
      }
    }
  }

  // ---- replay and reconciliation ---------------------------------------------------------

  lemma HeadIsMember<T>(s: seq<T>)
    ensures s == [] || s[0] in s
  {
  }

  lemma {:induction false} RowsOfUnique(receipts: seq<ReceiptRow>, operationId: nat)
    requires forall i, j | 0 <= i < j < |Resets(receipts)| ::
               Resets(receipts)[i].operationId != Resets(receipts)[j].operationId
    ensures |RowsOf(receipts, operationId)| <= 1
  {
    if receipts != [] {
      var init, last := receipts[..|receipts| - 1], receipts[|receipts| - 1];
      var before := Resets(init);
      assert before == Resets(receipts)[..|before|];
      forall i, j | 0 <= i < j < |before| ensures before[i].operationId != before[j].operationId {
        assert before[i] == Resets(receipts)[i] && before[j] == Resets(receipts)[j];
      }
      RowsOfUnique(init, operationId);
      if IsReset(last, operationId) {
        RowsOfInResets(init, operationId);
        assert Resets(receipts)[|before|] == last;
        assert forall i | 0 <= i < |before| :: Resets(receipts)[i] == before[i];
        assert forall r :: r !in RowsOf(init, operationId);
        HeadIsMember(RowsOf(init, operationId));
      }
    }
  }

  /** `row` is the surviving record of the reset that `m` approved, with receipt `r`. */
  predicate Records(row: ReceiptRow, m: Manifest, r: ResetReceipt) {
    row.ResetRow? && row.manifest == m && row.receipt == r
  }

  lemma StoredHasARow(db: Db, m: Manifest, r: ResetReceipt)
    requires Prior(db, m) == Stored(r)
    ensures exists row :: row in Resets(db.receipts) && Records(row, m, r)
  {
    RowsOfInResets(db.receipts, m.operationId);
    var row := RowsOf(db.receipts, m.operationId)[0];
    assert row in RowsOf(db.receipts, m.operationId);
    assert Records(row, m, r);
  }

  lemma RowIsStored(first: nat, db: Db, m: Manifest, row: ReceiptRow)
    requires Inv(first, db) && row in Resets(db.receipts) && Records(row, m, row.receipt)
    ensures Prior(db, m) == Stored(row.receipt)
  {
    RowsOfInResets(db.receipts, m.operationId);
    RowsOfUnique(db.receipts, m.operationId);
    assert Sound(row);
    assert row in RowsOf(db.receipts, m.operationId);
    assert RowsOf(db.receipts, m.operationId) == [row];
  }

  /** The manifest's reset committed and no later reset superseded it. */
  ghost predicate IsLatest(db: Db, m: Manifest, r: ResetReceipt) {
    var resets := Resets(db.receipts);
    resets != [] && Records(resets[|resets| - 1], m, r)
  }

  /** Only the last reset can have installed the current epoch. */
  lemma CurrentEpochIsLast(first: nat, db: Db, row: ReceiptRow)
    requires Inv(first, db) && row in Resets(db.receipts) && row.receipt.newEpoch == db.control.epoch
    ensures row == Resets(db.receipts)[|Resets(db.receipts)| - 1]
  {
    var resets := Resets(db.receipts);
    var i :| 0 <= i < |resets| && resets[i] == row;
    assert Epochs(first, resets)[i + 1] == Epochs(first, resets)[|resets|];
  }

  lemma StoredCurrentIsLatest(first: nat, db: Db, m: Manifest, r: ResetReceipt)
    requires Inv(first, db)
    ensures Prior(db, m) == Stored(r) && db.control.epoch == r.newEpoch <==> IsLatest(db, m, r)
  {
    if Prior(db, m) == Stored(r) && db.control.epoch == r.newEpoch {
      StoredHasARow(db, m, r);
      var row :| row in Resets(db.receipts) && Records(row, m, r);
      CurrentEpochIsLast(first, db, row);
    }
    if IsLatest(db, m, r) {
      RowIsStored(first, db, m, Resets(db.receipts)[|Resets(db.receipts)| - 1]);
    }
  }

  /** Executing again returns the stored receipt exactly while that reset is the latest one. */
  lemma ReplayExactlyWhileLatest(cat: Catalogue, w: World, steps: seq<Step>, m: Manifest, g: Probe, r: ResetReceipt)
    requires Start(w)
    ensures ReadTx(DbAfter(cat, w, steps), m, g) == Replayed(r) <==>
              g.sameServer && m.newEpoch != m.snapshot.control.epoch && IsLatest(DbAfter(cat, w, steps), m, r)
    ensures ResetTx(cat, DbAfter(cat, w, steps), m, g).1 == Replayed(r) <==> IsLatest(DbAfter(cat, w, steps), m, r)
  {
    RunKeepsInv(cat, w, steps);
    StoredCurrentIsLatest(w.db.control.epoch, DbAfter(cat, w, steps), m, r);
  }

  /** After an uncertain commit, reconciliation reports success exactly when the commit happened and
      is still the latest reset; otherwise it stays uncertain. It never deletes again. */
  lemma ReconcileIsExact(cat: Catalogue, w: World, steps: seq<Step>, m: Manifest, g: Probe, r: ResetReceipt)
    requires Start(w)
    ensures ReconcileTx(DbAfter(cat, w, steps), m, g) == Replayed(r)
       <==> g.sameServer && IsLatest(DbAfter(cat, w, steps), m, r)
    ensures ReconcileTx(DbAfter(cat, w, steps), m, g) == CommitUncertain
         || exists stored :: ReconcileTx(DbAfter(cat, w, steps), m, g) == Replayed(stored)
  {
    RunKeepsInv(cat, w, steps);
    StoredCurrentIsLatest(w.db.control.epoch, DbAfter(cat, w, steps), m, r);
  }

  // ---- what each step decides, in every run ------------------------------------------------

  lemma RunOneMore(cat: Catalogue, w: World, steps: seq<Step>, s: Step)
    ensures Run(cat, w, steps + [s]) == Next(cat, Run(cat, w, steps), s)
  {
    assert (steps + [s])[..|steps|] == steps;
  }

  /** An operator that reached its second transaction resets exactly when it may. It learns so unless the
      acknowledgement is lost, and then reads back; a commit that never arrived leaves everything as it was. */
  lemma ExecuteDecides(cat: Catalogue, w: World, steps: seq<Step>, p: nat, g: Probe, delivery: Delivery)
    requires Run(cat, w, steps).PcOf(p).AtReset?
    ensures var m := Run(cat, w, steps).PcOf(p).m;
      var db, v := DbAfter(cat, w, steps), Run(cat, w, steps + [Execute(p, g, delivery)]);
      if !MayReset(cat, db, m, g) then
        v.db == db && (v.PcOf(p) == AtReconcile(m) || (v.PcOf(p).Finished? && !v.PcOf(p).outcome.Committed?))
      else if delivery == LostBeforeCommit then v.db == db && v.PcOf(p) == AtReconcile(m)
      else
        && (exists receipt :: IsResetOf(cat, db, m, g.now, v.db, receipt))
        && (if delivery == LostAfterCommit then v.PcOf(p) == AtReconcile(m)
            else v.PcOf(p).Finished? && v.PcOf(p).outcome.Committed?)
  {
    RunOneMore(cat, w, steps, Execute(p, g, delivery));
    ResetsExactlyWhen(cat, DbAfter(cat, w, steps), Run(cat, w, steps).PcOf(p).m, g);
  }

  /** An operator goes on to its second transaction exactly without a receipt of its operation, on the same
      server and with a new epoch; reading and reconciling change nothing. */
  lemma ReadDecides(cat: Catalogue, w: World, steps: seq<Step>, p: nat, m: Manifest, g: Probe)
    requires Run(cat, w, steps).PcOf(p) == Unstarted
    ensures var db, v := DbAfter(cat, w, steps), Run(cat, w, steps + [Read(p, m, g)]);
      && v.db == db && (v.PcOf(p) == AtReset(m) || v.PcOf(p).Finished?)
      && (v.PcOf(p) == AtReset(m) <==>
            && g.sameServer && m.newEpoch != m.snapshot.control.epoch
            && forall r | r in db.receipts && r.ResetRow? :: r.operationId != m.operationId)
  {
    RunOneMore(cat, w, steps, Read(p, m, g));
    ReadGoesOnExactlyWhen(DbAfter(cat, w, steps), m, g);
  }

  lemma ReconcileDecides(cat: Catalogue, w: World, steps: seq<Step>, p: nat, g: Probe)
    requires Start(w) && Run(cat, w, steps).PcOf(p).AtReconcile?
    ensures var m, v := Run(cat, w, steps).PcOf(p).m, Run(cat, w, steps + [ReconcileStep(p, g)]);
      && v.db == DbAfter(cat, w, steps) && v.PcOf(p).Finished?
      && forall r :: v.PcOf(p).outcome == Replayed(r) <==> g.sameServer && IsLatest(v.db, m, r)
  {
    RunOneMore(cat, w, steps, ReconcileStep(p, g));
    forall r ensures ReconcileTx(DbAfter(cat, w, steps), Run(cat, w, steps).PcOf(p).m, g) == Replayed(r)
                <==> g.sameServer && IsLatest(DbAfter(cat, w, steps), Run(cat, w, steps).PcOf(p).m, r)
    {
      ReconcileIsExact(cat, w, steps, Run(cat, w, steps).PcOf(p).m, g, r);
    }
  }
}
