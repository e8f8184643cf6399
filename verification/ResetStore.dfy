/**
 The destructive reset as one guarded transaction over an initialised database.

 Content hashes are represented by the content they digest, so the approved
 manifest carries the whole observed state and comparing state hashes is
 comparing states. `ResetDatabase` performs the transaction statement by
 statement; `ResetTx` is its specification.
 */
module ResetStore {
  import opened Options
  import opened DeletionOrder

  // ---- state -------------------------------------------------------------------

  datatype Payload = Payload(epoch: nat, cutoff: int)

  datatype Control = Control(
    epoch: nat, revision: nat, cutoff: int, maintenance: bool, bootstrapId: nat, bootstrapHash: Payload)

  datatype ResetReceipt = ResetReceipt(
    operationId: nat, oldEpoch: nat, newEpoch: nat, bootstrapHash: Payload,
    deleted: map<Name, nat>, retained: map<Name, nat>)

  /** A row of the receipts table. Only reset, bootstrap and capture rows survive a reset. */
  datatype ReceiptRow =
    | ResetRow(epoch: nat, operationId: nat, manifest: Manifest, receipt: ResetReceipt)
    | BootstrapRow(epoch: nat, operationId: nat)
    | CaptureRow(epoch: nat, operationId: nat)
    | OperationalRow(epoch: nat, operationId: nat)

  datatype Db = Db(control: Control, rows: map<Name, seq<string>>, receipts: seq<ReceiptRow>)

  datatype Manifest = Manifest(operationId: nat, newEpoch: nat, snapshot: Db)

  datatype Catalogue = Catalogue(tables: seq<Table>, keys: seq<ForeignKey>, receiptTable: Name)

  function Cleared(cat: Catalogue): set<Name> { Clearable(cat.tables) }

  /** The tables, other than the receipts table, whose row counts a receipt records as retained. */
  function Preserved(cat: Catalogue): set<Name> {
    set t | t in cat.tables && (t.operation == PreserveBudget || t.operation == PreserveRegistration
                                || t.operation == PreserveJournal) :: t.name
  }

  /** The declared names are distinct. */
  ghost predicate WellNamed(cat: Catalogue) {
    && Cleared(cat) !! Preserved(cat)
    && cat.receiptTable !in Cleared(cat) + Preserved(cat)
  }

  /** Live observations of the second transaction, and the database clock. */
  datatype Probe = Probe(sameServer: bool, compatible: bool, preflightBefore: bool, preflightAfter: bool, now: int)

  /** Why an operation refuses. */
  datatype Refusal =
    | ConnectedServerChanged
    | ExactManifestMustBeConfirmed
    | ForeignKeyCycle
    | FreshInventoryDiffers
    | LivePreflight
    | NewEpochAlreadyUsed
    | OperationIdWasReused
    | ReceiptAndBaselineDoNotMatch

  datatype Outcome =
    | Committed(receipt: ResetReceipt)
    | Replayed(receipt: ResetReceipt)
    | Proceed
    | Refused(code: Refusal)
    | CommitUncertain

  // ---- reads -------------------------------------------------------------------

  datatype Lookup = NoPrior | Stored(receipt: ResetReceipt) | Reused

  predicate IsReset(r: ReceiptRow, operationId: nat) {
    r.ResetRow? && r.operationId == operationId
  }

  function RowsOf(receipts: seq<ReceiptRow>, operationId: nat): seq<ReceiptRow> {
    if receipts == [] then []
    else RowsOf(receipts[..|receipts| - 1], operationId)
         + if IsReset(receipts[|receipts| - 1], operationId) then [receipts[|receipts| - 1]] else []
  }

  /** The stored receipt of this manifest's operation, if that operation is not somebody else's. */
  function Prior(db: Db, m: Manifest): Lookup {
    var found := RowsOf(db.receipts, m.operationId);
    if found == [] then NoPrior
    else if |found| != 1 || !found[0].ResetRow? || found[0].manifest != m
      || found[0].receipt.operationId != m.operationId
      || found[0].receipt.oldEpoch != m.snapshot.control.epoch
      || found[0].receipt.newEpoch != m.newEpoch then Reused
    else Stored(found[0].receipt)
  }

  predicate IsBaseline(db: Db, r: ResetReceipt) {
    && db.control.epoch == r.newEpoch
    && db.control.bootstrapId == r.operationId
    && db.control.bootstrapHash == r.bootstrapHash
  }

  predicate MentionsEpoch(r: ReceiptRow, epoch: nat) {
    r.epoch == epoch || (r.ResetRow? && (r.receipt.oldEpoch == epoch || r.receipt.newEpoch == epoch))
  }

  predicate EpochUsed(db: Db, epoch: nat) {
    exists r | r in db.receipts :: MentionsEpoch(r, epoch)
  }

  predicate Survives(r: ReceiptRow) { !r.OperationalRow? }

  function Kept(receipts: seq<ReceiptRow>): (r: seq<ReceiptRow>)
    ensures |r| <= |receipts|
  {
    if receipts == [] then []
    else
      Kept(receipts[..|receipts| - 1])
        + if Survives(receipts[|receipts| - 1]) then [receipts[|receipts| - 1]] else []
  }

  predicate Blocked(cat: Catalogue, db: Db, g: Probe) {
    !g.compatible || !db.control.maintenance || !(Cleared(cat) <= db.rows.Keys)
  }

  // ---- transactions --------------------------------------------------------------

  /** First transaction: replay a stored receipt, refuse, or go on. */
  function ReadTx(db: Db, m: Manifest, g: Probe): Outcome {
    if m.newEpoch == m.snapshot.control.epoch then Refused(ExactManifestMustBeConfirmed)
    else if !g.sameServer then Refused(ConnectedServerChanged)
    else match Prior(db, m)
      case Reused => Refused(OperationIdWasReused)
      case Stored(r) => if IsBaseline(db, r) then Replayed(r) else Refused(ReceiptAndBaselineDoNotMatch)
      case NoPrior => Proceed
  }

  function DeletedCounts(cat: Catalogue, db: Db): map<Name, nat>
    requires Cleared(cat) <= db.rows.Keys
  {
    Counts(db.rows, Cleared(cat))[cat.receiptTable := |db.receipts| - |Kept(db.receipts)|]
  }

  function RetainedCounts(cat: Catalogue, db: Db): map<Name, nat> {
    Counts(db.rows, Preserved(cat))[cat.receiptTable := |Kept(db.receipts)|]
  }

  function ReceiptFor(cat: Catalogue, db: Db, m: Manifest, now: int): ResetReceipt
    requires Cleared(cat) <= db.rows.Keys
  {
    ResetReceipt(m.operationId, db.control.epoch, m.newEpoch, Payload(m.newEpoch, now),
                 DeletedCounts(cat, db), RetainedCounts(cat, db))
  }

  function Emptied(rows: map<Name, seq<string>>, names: set<Name>): map<Name, seq<string>> {
    map n | n in rows :: if n in names then [] else rows[n]
  }

  function Counts(rows: map<Name, seq<string>>, names: set<Name>): map<Name, nat> {
    map n | n in names && n in rows :: |rows[n]|
  }

  lemma DeleteOneMore(rows: map<Name, seq<string>>, done: set<Name>, n: Name)
    requires n in rows && n !in done
    ensures Emptied(rows, done)[n] == rows[n]
    ensures Emptied(rows, done)[n := []] == Emptied(rows, done + {n})
    ensures Counts(rows, done)[n := |rows[n]|] == Counts(rows, done + {n})
  {
  }

  function AfterReset(cat: Catalogue, db: Db, m: Manifest, now: int): Db
    requires Cleared(cat) <= db.rows.Keys
  {
    Db(Control(m.newEpoch, 0, now, true, m.operationId, Payload(m.newEpoch, now)),
       Emptied(db.rows, Cleared(cat)),
       Kept(db.receipts) + [ResetRow(m.newEpoch, m.operationId, m, ReceiptFor(cat, db, m, now))])
  }

  /** Second transaction: compare, delete, replace the epoch and write the receipt, or nothing. */
  function ResetTx(cat: Catalogue, db: Db, m: Manifest, g: Probe): (Db, Outcome) {
    match Prior(db, m)
    case Reused => (db, Refused(OperationIdWasReused))
    case Stored(r) => (db, if IsBaseline(db, r) then Replayed(r) else Refused(ReceiptAndBaselineDoNotMatch))
    case NoPrior =>
      if Blocked(cat, db, g) || db != m.snapshot then (db, Refused(FreshInventoryDiffers))
      else if !g.sameServer then (db, Refused(ConnectedServerChanged))
      else if !g.preflightBefore then (db, Refused(LivePreflight))
      else if EpochUsed(db, m.newEpoch) then (db, Refused(NewEpochAlreadyUsed))
      else if Layered(cat.keys, Cleared(cat)).Err? then (db, Refused(ForeignKeyCycle))
      else if !g.preflightAfter then (db, Refused(LivePreflight))
      else (AfterReset(cat, db, m, g.now), Committed(ReceiptFor(cat, db, m, g.now)))
  }

  /** The reads after an uncertain commit. */
  function ReconcileTx(db: Db, m: Manifest, g: Probe): Outcome {
    match Prior(db, m)
    case Stored(r) => if db.control.epoch == r.newEpoch && g.sameServer then Replayed(r) else CommitUncertain
    case _ => CommitUncertain
  }

  // ---- what a reset keeps, and when it happens, in the words of the database ---------------------

  /** `after` are exactly the reset, bootstrap and capture rows of `before`, in their order: the i-th of them
      stood at `places[i]`. */
  ghost predicate KeepsExactly(before: seq<ReceiptRow>, after: seq<ReceiptRow>, places: seq<nat>) {
    && |places| == |after|
    && (forall i | 0 <= i < |after| :: places[i] < |before| && after[i] == before[places[i]])
    && (forall i, j | 0 <= i < j < |places| :: places[i] < places[j])
    && forall k: nat | k < |before| ::
         k in places <==> before[k].ResetRow? || before[k].BootstrapRow? || before[k].CaptureRow?
  }

  ghost predicate Retains(before: seq<ReceiptRow>, after: seq<ReceiptRow>) {
    exists places :: KeepsExactly(before, after, places)
  }

  /** The places of the operational rows. */
  function OperationalPlaces(receipts: seq<ReceiptRow>): set<nat> {
    set k: nat | k < |receipts| && receipts[k].OperationalRow?
  }

  lemma KeepOneMore(before: seq<ReceiptRow>, after: seq<ReceiptRow>, places: seq<nat>, r: ReceiptRow)
    requires KeepsExactly(before, after, places)
    ensures r.OperationalRow? ==> KeepsExactly(before + [r], after, places)
    ensures !r.OperationalRow? ==> KeepsExactly(before + [r], after + [r], places + [|before|])
  {
    assert forall k :: k in places + [|before|] <==> k in places || k == |before|;
  }

  lemma {:induction false} KeptKeepsExactly(receipts: seq<ReceiptRow>) returns (places: seq<nat>)
    ensures KeepsExactly(receipts, Kept(receipts), places)
  {
    if receipts == [] {
      places := [];
    } else {
      var init, last := receipts[..|receipts| - 1], receipts[|receipts| - 1];
      places := KeptKeepsExactly(init);
      KeepOneMore(init, Kept(init), places, last);
      assert init + [last] == receipts;
      if !last.OperationalRow? {
        places := places + [|init|];
      }
    }
  }

  lemma {:induction false} KeptCounts(receipts: seq<ReceiptRow>)
    ensures |receipts| == |Kept(receipts)| + |OperationalPlaces(receipts)|
  {
    if receipts == [] {
      assert OperationalPlaces(receipts) == {};
    } else {
      var init: seq<ReceiptRow>, last: nat := receipts[..|receipts| - 1], |receipts| - 1;
      KeptCounts(init);
      if receipts[last].OperationalRow? {
        assert OperationalPlaces(receipts) == OperationalPlaces(init) + {last};
      } else {
        assert OperationalPlaces(receipts) == OperationalPlaces(init);
      }
    }
  }

  lemma KeptRetains(receipts: seq<ReceiptRow>)
    ensures Retains(receipts, Kept(receipts))
    ensures |receipts| == |Kept(receipts)| + |OperationalPlaces(receipts)|
  {
    var places := KeptKeepsExactly(receipts);
    KeptCounts(receipts);
  }

  /** The tables a catalogue says to clear. */
  ghost function ClearNames(cat: Catalogue): set<Name> {
    set i | 0 <= i < |cat.tables| && cat.tables[i].operation == Clear :: cat.tables[i].name
  }

  /** Everything a first execution asks for: no receipt of the operation, a compatible database in maintenance with
      every table to clear, the approved state to the last row, the same server, both preflights, an epoch that
      nothing mentions, and foreign keys without a cycle. */
  ghost predicate MayReset(cat: Catalogue, db: Db, m: Manifest, g: Probe) {
    && (forall r | r in db.receipts && r.ResetRow? :: r.operationId != m.operationId)
    && g.compatible && db.control.maintenance && ClearNames(cat) <= db.rows.Keys && db == m.snapshot
    && g.sameServer && g.preflightBefore && g.preflightAfter
    && (forall r | r in db.receipts ::
          && r.epoch != m.newEpoch
          && (r.ResetRow? ==> r.receipt.oldEpoch != m.newEpoch && r.receipt.newEpoch != m.newEpoch))
    && !Cyclic(cat.keys, ClearNames(cat))
  }

  /** What a committed reset leaves: the new control row, the cleared tables empty, all else in place, and the
      kept receipts followed by its own, which counts what went and what stayed. */
  ghost predicate IsResetOf(cat: Catalogue, db: Db, m: Manifest, now: int, after: Db, receipt: ResetReceipt) {
    && after.control == Control(m.newEpoch, 0, now, true, m.operationId, Payload(m.newEpoch, now))
    && after.rows.Keys == db.rows.Keys
    && (forall n | n in db.rows :: after.rows[n] == if n in ClearNames(cat) then [] else db.rows[n])
    && |after.receipts| > 0
    && after.receipts[|after.receipts| - 1] == ResetRow(m.newEpoch, m.operationId, m, receipt)
    && Retains(db.receipts, after.receipts[..|after.receipts| - 1])
    && receipt.operationId == m.operationId && receipt.oldEpoch == db.control.epoch && receipt.newEpoch == m.newEpoch
    && receipt.bootstrapHash == Payload(m.newEpoch, now)
    && receipt.deleted.Keys == ClearNames(cat) + {cat.receiptTable}
    && (forall n | n in ClearNames(cat) && n != cat.receiptTable ::
          n in db.rows && receipt.deleted[n] == |db.rows[n]|)
    && receipt.deleted[cat.receiptTable] == |OperationalPlaces(db.receipts)|
    && cat.receiptTable in receipt.retained
    && receipt.retained[cat.receiptTable] == |db.receipts| - |OperationalPlaces(db.receipts)|
    && forall t | t in cat.tables && t.name in db.rows && t.name != cat.receiptTable
                  && (t.operation == PreserveBudget || t.operation == PreserveRegistration
                      || t.operation == PreserveJournal) ::
         t.name in receipt.retained && receipt.retained[t.name] == |db.rows[t.name]|
  }

  lemma ClearedAreClearNames(cat: Catalogue)
    ensures Cleared(cat) == ClearNames(cat)
  {
    forall n ensures n in Cleared(cat) <==> n in ClearNames(cat) {
      if n in Cleared(cat) {
        var t :| t in cat.tables && t.operation == Clear && t.name == n;
        var i :| 0 <= i < |cat.tables| && cat.tables[i] == t;
      }
    }
  }

  lemma {:induction false} NoRowsOf(receipts: seq<ReceiptRow>, operationId: nat)
    ensures RowsOf(receipts, operationId) == []
       <==> forall r | r in receipts && r.ResetRow? :: r.operationId != operationId
  {
    if receipts != [] {
      NoRowsOf(receipts[..|receipts| - 1], operationId);
      assert receipts == receipts[..|receipts| - 1] + [receipts[|receipts| - 1]];
    }
  }

  lemma ResetLeaves(cat: Catalogue, db: Db, m: Manifest, now: int)
    requires Cleared(cat) <= db.rows.Keys
    ensures IsResetOf(cat, db, m, now, AfterReset(cat, db, m, now), ReceiptFor(cat, db, m, now))
  {
    ClearedAreClearNames(cat);
    KeptRetains(db.receipts);
    var after, receipt := AfterReset(cat, db, m, now), ReceiptFor(cat, db, m, now);
    assert after.receipts[..|after.receipts| - 1] == Kept(db.receipts);
  }

  /** A reset commits exactly when it may, with exactly that effect; otherwise nothing changes. */
  lemma ResetsExactlyWhen(cat: Catalogue, db: Db, m: Manifest, g: Probe)
    ensures var (after, out) := ResetTx(cat, db, m, g);
      && (out.Committed? <==> MayReset(cat, db, m, g))
      && (out.Committed? ==> IsResetOf(cat, db, m, g.now, after, out.receipt))
      && (!out.Committed? ==> after == db && (out.Replayed? || out.Refused?))
  {
    ClearedAreClearNames(cat);
    NoRowsOf(db.receipts, m.operationId);
    FailsExactlyOnACycle(cat.keys, Cleared(cat));
    if Cleared(cat) <= db.rows.Keys {
      ResetLeaves(cat, db, m, g.now);
    }
  }

  /** The first transaction goes on exactly without a receipt of the operation, on the same server, with a new epoch;
      only a receipt of the operation is ever replayed, and only then. */
  lemma ReadGoesOnExactlyWhen(db: Db, m: Manifest, g: Probe)
    ensures ReadTx(db, m, g) == Proceed <==>
              && g.sameServer && m.newEpoch != m.snapshot.control.epoch
              && forall r | r in db.receipts && r.ResetRow? :: r.operationId != m.operationId
    ensures ReadTx(db, m, g) == Proceed || ReadTx(db, m, g).Replayed? || ReadTx(db, m, g).Refused?
    ensures ReadTx(db, m, g).Replayed? ==> g.sameServer && m.newEpoch != m.snapshot.control.epoch
  {
    NoRowsOf(db.receipts, m.operationId);
  }

  // ---- the same transaction, statement by statement --------------------------------

  class ResetDatabase {
    var control: Control
    var rows: map<Name, seq<string>>
    var receipts: seq<ReceiptRow>

    function Value(): Db
      reads this
    {
      Db(control, rows, receipts)
    }

    constructor (db: Db)
      ensures Value() == db
    {
      control, rows, receipts := db.control, db.rows, db.receipts;
    }

    method Rollback(db: Db)
      modifies this
      ensures Value() == db
    {
      control, rows, receipts := db.control, db.rows, db.receipts;
    }

    /** DELETE FROM each table in deletion order, recording the affected counts. */
    method DeleteRows(cat: Catalogue, order: seq<Name>) returns (deleted: map<Name, nat>)
      requires PermutationOf(order, Cleared(cat)) && Cleared(cat) <= rows.Keys
      modifies this`rows
      ensures rows == Emptied(old(rows), Cleared(cat))
      ensures deleted == Counts(old(rows), Cleared(cat))
      ensures rows.Keys == old(rows).Keys && deleted.Keys == Cleared(cat)
      ensures forall n | n in rows :: rows[n] == if n in Cleared(cat) then [] else old(rows)[n]
      ensures forall n | n in deleted :: deleted[n] == |old(rows)[n]|
    {
      deleted := map[];
      ghost var before, done := rows, set n | n in order[..0];
      var i := 0;
      while i < |order|
        invariant 0 <= i <= |order|
        invariant done == set n | n in order[..i]
        invariant rows == Emptied(before, done) && deleted == Counts(before, done)
      {
        assert order[i] in order && order[i] !in order[..i];
        assert order[..i + 1] == order[..i] + [order[i]];
        DeleteOneMore(before, done, order[i]);
        deleted := deleted[order[i] := |rows[order[i]]|];
        rows := rows[order[i] := []];
        done := done + {order[i]};
        i := i + 1;
      }
      assert order[..i] == order;
      assert done == Cleared(cat);
    }

    method DeleteReceipts() returns (affected: nat)
      modifies this`receipts
      ensures receipts == Kept(old(receipts)) && affected == |old(receipts)| - |receipts|
      ensures Retains(old(receipts), receipts) && affected == |OperationalPlaces(old(receipts))|
    {
      KeptRetains(receipts);
      var kept := [];
      var i := 0;
      while i < |receipts|
        invariant 0 <= i <= |receipts| && kept == Kept(receipts[..i])
      {
        assert receipts[..i + 1][..i] == receipts[..i];
        if Survives(receipts[i]) {
          kept := kept + [receipts[i]];
        }
        i := i + 1;
      }
      assert receipts[..i] == receipts;
      affected := |receipts| - |kept|;
      receipts := kept;
    }

    method Reset(cat: Catalogue, m: Manifest, g: Probe) returns (out: Outcome)
      modifies this
      ensures (Value(), out) == ResetTx(cat, old(Value()), m, g)
      ensures out.Committed? <==> MayReset(cat, old(Value()), m, g)
      ensures out.Committed? ==> IsResetOf(cat, old(Value()), m, g.now, Value(), out.receipt)
      ensures !out.Committed? ==> Value() == old(Value())
    {
      ResetsExactlyWhen(cat, Value(), m, g);
      var current := Value();
      var prior := Prior(current, m);
      if prior.Reused? { return Refused(OperationIdWasReused); }
      if prior.Stored? {
        return if IsBaseline(current, prior.receipt) then Replayed(prior.receipt)
               else Refused(ReceiptAndBaselineDoNotMatch);
      }
      if Blocked(cat, current, g) || current != m.snapshot { return Refused(FreshInventoryDiffers); }
      if !g.sameServer { return Refused(ConnectedServerChanged); }
      if !g.preflightBefore { return Refused(LivePreflight); }
      if EpochUsed(current, m.newEpoch) { return Refused(NewEpochAlreadyUsed); }
      var order := Order(cat.tables, cat.keys);
      if order.Err? { return Refused(ForeignKeyCycle); }
      LayeredIsADeletionOrder(cat.keys, Cleared(cat));
      var deleted := DeleteRows(cat, order.value);
      var affected := DeleteReceipts();
      deleted := deleted[cat.receiptTable := affected];
      var retained := RetainedCounts(cat, current);
      if !g.preflightAfter {
        Rollback(current);
        return Refused(LivePreflight);
      }
      control := Control(m.newEpoch, 0, g.now, true, m.operationId, Payload(m.newEpoch, g.now));
      var receipt := ResetReceipt(m.operationId, current.control.epoch, m.newEpoch, Payload(m.newEpoch, g.now),
                                  deleted, retained);
      receipts := receipts + [ResetRow(m.newEpoch, m.operationId, m, receipt)];
      return Committed(receipt);
    }
  }
}
