/**
 Any number of reset operators against one database that other writers keep changing.

 An operator reads, later runs the reset transaction, and reconciles if the
 commit was uncertain. Between any two transactions the environment may rewrite
 rows, operational receipts and the control revision; it never touches reset
 receipts, the epoch or the bootstrap binding, which only a reset replaces.
 */
module ResetProtocol {
  import opened DeletionOrder
  import opened ResetStore

  datatype Pc =
    | Unstarted
    | AtReset(m: Manifest)
    | AtReconcile(m: Manifest)
    | Finished(outcome: Outcome)

  datatype World = World(db: Db, operators: map<nat, Pc>) {
    function PcOf(p: nat): Pc { if p in operators then operators[p] else Unstarted }
  }

  /** How the acknowledgement of the second transaction came back. */
  datatype Delivery = Acknowledged | LostAfterCommit | LostBeforeCommit

  datatype Step =
    | Read(p: nat, m: Manifest, g: Probe)
    | Execute(p: nat, g: Probe, delivery: Delivery)
    | ReconcileStep(p: nat, g: Probe)
    | Environment(db: Db)
    | Crash(p: nat)

  /** The resets recorded in a receipts table, oldest first. */
  function Resets(receipts: seq<ReceiptRow>): seq<ReceiptRow> {
    if receipts == [] then []
    else
      Resets(receipts[..|receipts| - 1])
        + if receipts[|receipts| - 1].ResetRow? then [receipts[|receipts| - 1]] else []
  }

  predicate EnvironmentMay(db: Db, db': Db) {
    && db'.control.epoch == db.control.epoch
    && db'.control.bootstrapId == db.control.bootstrapId
    && db'.control.bootstrapHash == db.control.bootstrapHash
    && Resets(db'.receipts) == Resets(db.receipts)
  }

  function Next(cat: Catalogue, w: World, s: Step): World {
    match s
    case Read(p, m, g) =>
      if w.PcOf(p) != Unstarted then w
      else
        var out := ReadTx(w.db, m, g);
        w.(operators := w.operators[p := if out == Proceed then AtReset(m) else Finished(out)])
    case Execute(p, g, delivery) =>
      if !w.PcOf(p).AtReset? then w
      else
        var m := w.PcOf(p).m;
        var (db, out) := ResetTx(cat, w.db, m, g);
        if out.Refused? then w.(operators := w.operators[p := Finished(out)])
        else if delivery == LostBeforeCommit then w.(operators := w.operators[p := AtReconcile(m)])
        else if delivery == LostAfterCommit then World(db, w.operators[p := AtReconcile(m)])
        else World(db, w.operators[p := Finished(out)])
    case ReconcileStep(p, g) =>
      if !w.PcOf(p).AtReconcile? then w
      else w.(operators := w.operators[p := Finished(ReconcileTx(w.db, w.PcOf(p).m, g))])
    case Environment(db') => if EnvironmentMay(w.db, db') then w.(db := db') else w
    case Crash(p) => w.(operators := w.operators[p := Finished(CommitUncertain)])
  }

  function Run(cat: Catalogue, w: World, steps: seq<Step>): World
    decreases |steps|
  {
    if steps == [] then w else Next(cat, Run(cat, w, steps[..|steps| - 1]), steps[|steps| - 1])
  }

  /** An initialised database that has never been reset. */
  ghost predicate Start(w: World) {
    Resets(w.db.receipts) == [] && w.operators == map[]
  }

  // ---- the chain of epochs -------------------------------------------------------

  /** `first` followed by the epoch that each reset installed. */
  function Epochs(first: nat, resets: seq<ReceiptRow>): (r: seq<nat>)
    requires forall i | 0 <= i < |resets| :: resets[i].ResetRow?
    ensures |r| == |resets| + 1
  {
    [first] + seq(|resets|, i requires 0 <= i < |resets| => resets[i].receipt.newEpoch)
  }

  lemma {:induction false} ResetsAreResets(receipts: seq<ReceiptRow>)
    ensures forall i | 0 <= i < |Resets(receipts)| :: Resets(receipts)[i].ResetRow?
  {
    if receipts != [] {
      ResetsAreResets(receipts[..|receipts| - 1]);
    }
  }

  /** The stored record of one reset is consistent with its own manifest. */
  ghost predicate Sound(r: ReceiptRow) {
    && r.ResetRow?
    && r.operationId == r.manifest.operationId == r.receipt.operationId
    && r.epoch == r.manifest.newEpoch == r.receipt.newEpoch
    && r.receipt.oldEpoch == r.manifest.snapshot.control.epoch
  }

  /** Every reset starts from the epoch its predecessor installed; no epoch and no operation recurs. */
  ghost predicate Chained(first: nat, resets: seq<ReceiptRow>) {
    && (forall i | 0 <= i < |resets| :: Sound(resets[i]))
    && (forall i | 0 <= i < |resets| :: resets[i].receipt.oldEpoch == Epochs(first, resets)[i])
    && (forall i, j | 0 <= i < j < |resets| + 1 :: Epochs(first, resets)[i] != Epochs(first, resets)[j])
    && (forall i, j | 0 <= i < j < |resets| :: resets[i].operationId != resets[j].operationId)
  }

  ghost predicate Inv(first: nat, db: Db) {
    var resets := Resets(db.receipts);
    && Chained(first, resets)
    && db.control.epoch == Epochs(first, resets)[|resets|]
    && (resets != [] ==> IsBaseline(db, resets[|resets| - 1].receipt))
  }

  lemma {:induction false} ResetsOfKept(receipts: seq<ReceiptRow>)
    ensures Resets(Kept(receipts)) == Resets(receipts)
  {
    if receipts != [] {
      var init, last := receipts[..|receipts| - 1], receipts[|receipts| - 1];
      ResetsOfKept(init);
      if Survives(last) {
        assert (Kept(init) + [last])[..|Kept(init)|] == Kept(init);
      } else {
        assert Kept(init) + [] == Kept(init);
      }
    }
  }

  lemma ResetsAppend(receipts: seq<ReceiptRow>, r: ReceiptRow)
    ensures Resets(receipts + [r]) == Resets(receipts) + if r.ResetRow? then [r] else []
  {
    assert (receipts + [r])[..|receipts|] == receipts;
  }

  lemma {:induction false} InResets(receipts: seq<ReceiptRow>, r: ReceiptRow)
    ensures r in Resets(receipts) <==> r in receipts && r.ResetRow?
  {
    if receipts != [] {
      var init, last := receipts[..|receipts| - 1], receipts[|receipts| - 1];
      assert receipts == init + [last];
      InResets(init, r);
    }
  }

  lemma {:induction false} RowsOfInResets(receipts: seq<ReceiptRow>, operationId: nat)
    ensures forall r :: r in RowsOf(receipts, operationId) <==> r in Resets(receipts) && r.operationId == operationId
  {
    if receipts != [] {
      RowsOfInResets(receipts[..|receipts| - 1], operationId);
    }
  }

  // ---- every step keeps the chain ----------------------------------------------------

  lemma EpochsAppend(first: nat, resets: seq<ReceiptRow>, r: ReceiptRow)
    requires r.ResetRow? && forall i | 0 <= i < |resets| :: resets[i].ResetRow?
    ensures Epochs(first, resets + [r]) == Epochs(first, resets) + [r.receipt.newEpoch]
  {
  }

  lemma ChainExtends(first: nat, resets: seq<ReceiptRow>, r: ReceiptRow)
    requires Chained(first, resets) && Sound(r)
    requires r.receipt.oldEpoch == Epochs(first, resets)[|resets|]
    requires forall i | 0 <= i < |resets| + 1 :: Epochs(first, resets)[i] != r.receipt.newEpoch
    requires forall i | 0 <= i < |resets| :: resets[i].operationId != r.operationId
    ensures Chained(first, resets + [r])
    ensures Epochs(first, resets + [r])[|resets| + 1] == r.receipt.newEpoch
  {
    EpochsAppend(first, resets, r);
    var after, epochs := resets + [r], Epochs(first, resets);
    forall i | 0 <= i < |after| ensures Sound(after[i]) && after[i].receipt.oldEpoch == Epochs(first, after)[i] {
      if i < |resets| {
        assert after[i] == resets[i];
      }
    }
    forall i, j | 0 <= i < j < |after| ensures after[i].operationId != after[j].operationId {
      if j == |resets| {
        assert after[i] == resets[i];
      }
    }
    forall i, j | 0 <= i < j < |after| + 1 ensures Epochs(first, after)[i] != Epochs(first, after)[j] {
      if j == |resets| + 1 {
        assert Epochs(first, after)[i] == epochs[i];
      }
    }
  }

  /** An epoch that no surviving row mentions, and that is not current, is new to the whole chain. */
  lemma UnusedEpochIsNew(first: nat, db: Db, epoch: nat)
    requires Inv(first, db) && !EpochUsed(db, epoch) && epoch != db.control.epoch
    ensures forall i | 0 <= i < |Resets(db.receipts)| + 1 :: Epochs(first, Resets(db.receipts))[i] != epoch
  {
    var resets := Resets(db.receipts);
    forall i | 0 <= i < |resets| + 1 ensures Epochs(first, resets)[i] != epoch {
      if i < |resets| {
        InResets(db.receipts, resets[i]);
        assert !MentionsEpoch(resets[i], epoch);
      }
    }
  }

  /** What a commit adds to the chain. */
  lemma CommitEffect(cat: Catalogue, db: Db, m: Manifest, g: Probe)
    requires ResetTx(cat, db, m, g).1.Committed?
    ensures var (db', out) := ResetTx(cat, db, m, g);
            var r := db'.receipts[|db'.receipts| - 1];
            && Sound(r) && r.manifest == m && r.receipt == out.receipt
            && Resets(db'.receipts) == Resets(db.receipts) + [r]
            && db == m.snapshot && IsBaseline(db', r.receipt)
            && !EpochUsed(db, m.newEpoch)
            && forall i | 0 <= i < |Resets(db.receipts)| :: Resets(db.receipts)[i].operationId != m.operationId
  {
    var db' := ResetTx(cat, db, m, g).0;
    ResetsOfKept(db.receipts);
    ResetsAppend(Kept(db.receipts), db'.receipts[|db'.receipts| - 1]);
    RowsOfInResets(db.receipts, m.operationId);
    forall i | 0 <= i < |Resets(db.receipts)| ensures Resets(db.receipts)[i].operationId != m.operationId {
      assert Resets(db.receipts)[i] !in RowsOf(db.receipts, m.operationId);
    }
  }

  lemma ResetKeepsInv(cat: Catalogue, first: nat, db: Db, m: Manifest, g: Probe)
    requires Inv(first, db) && m.newEpoch != m.snapshot.control.epoch
    ensures Inv(first, ResetTx(cat, db, m, g).0)
  {
    var (db', out) := ResetTx(cat, db, m, g);
    if out.Committed? {
      CommitEffect(cat, db, m, g);
      UnusedEpochIsNew(first, db, m.newEpoch);
      ChainExtends(first, Resets(db.receipts), db'.receipts[|db'.receipts| - 1]);
    }
  }

  ghost predicate OperatorsConfirmed(w: World) {
    forall p | p in w.operators && w.operators[p].AtReset? ::
      w.operators[p].m.newEpoch != w.operators[p].m.snapshot.control.epoch
  }

  lemma NextKeepsConfirmed(cat: Catalogue, w: World, s: Step)
    requires OperatorsConfirmed(w)
    ensures OperatorsConfirmed(Next(cat, w, s))
  {
  }

  lemma NextKeepsInv(cat: Catalogue, first: nat, w: World, s: Step)
    requires Inv(first, w.db) && OperatorsConfirmed(w)
    ensures Inv(first, Next(cat, w, s).db) && OperatorsConfirmed(Next(cat, w, s))
  {
    NextKeepsConfirmed(cat, w, s);
    if s.Execute? && w.PcOf(s.p).AtReset? {
      ResetKeepsInv(cat, first, w.db, w.PcOf(s.p).m, s.g);
    }
  }

  lemma {:induction false} RunKeepsInv(cat: Catalogue, w: World, steps: seq<Step>)
    requires Start(w)
    ensures Inv(w.db.control.epoch, Run(cat, w, steps).db) && OperatorsConfirmed(Run(cat, w, steps))
    decreases |steps|
  {
    if steps != [] {
      RunKeepsInv(cat, w, steps[..|steps| - 1]);
      NextKeepsInv(cat, w.db.control.epoch, Run(cat, w, steps[..|steps| - 1]), steps[|steps| - 1]);
    }
  }
}
