/**
 The two durable tables of the SQL bootstrap and its three transactions.

 A SHA-256 fingerprint is represented by the content it digests, which is
 exactly the assumption that hashing is injective. A transaction is one atomic
 function `(tables, inputs) -> (tables, outcome)`; a refused transaction rolls
 back. `Database` performs the same transactions statement by statement, in
 place, with its own rollbacks.
 */
module BootstrapStore {
  import opened Options

  // ---- artifacts -----------------------------------------------------------

  /** A loaded bundle. Its fingerprint is the bundle, its source hash `sources`. */
  datatype Bundle = Bundle(operationId: nat, sources: string, batches: seq<string>)

  /** What a receipt or a resolution binds: operation, fingerprint, source hash. */
  datatype Identity = Identity(operationId: nat, fingerprint: Bundle, source: string)

  function IdentityOf(b: Bundle): Identity {
    Identity(b.operationId, b, b.sources)
  }

  datatype RecoveryRequest = RecoveryRequest(
    original: Identity, originalStartedAt: int, receiptObject: nat,
    replacement: Identity, emptyBaseline: Option<string>, observedAt: int, expiresAt: int)

  /** The request validator, together with the binding to the loaded replacement. */
  predicate Admissible(req: RecoveryRequest, replacement: Bundle) {
    && req.original.operationId != req.replacement.operationId
    && 0 < req.expiresAt - req.observedAt <= 900
    && req.replacement == IdentityOf(replacement)
  }

  // ---- tables --------------------------------------------------------------

  datatype Status = Started | Committed

  datatype Receipt = Receipt(fingerprint: Bundle, source: string, status: Status, startedAt: int)

  datatype Resolution = Resolution(
    originalFingerprint: Bundle, originalSource: string, replacement: Identity,
    request: RecoveryRequest, receiptObject: nat)

  /** One batch that took effect, and the operation it belongs to. */
  datatype Installed = Installed(operationId: nat, batch: string)

  /** `receiptsObject` and `recoveries` are absent until their CREATE TABLE commits. */
  datatype Tables = Tables(
    receiptsObject: Option<nat>,
    receipts: map<nat, Receipt>,
    recoveries: Option<map<nat, Resolution>>,
    installed: seq<Installed>)

  const EMPTY := Tables(None, map[], None, [])

  /** Everything a transaction observes that is not in the two tables. */
  datatype Probe = Probe(
    targetMatches: bool, lockBusy: bool, metadataMatches: bool, otherSessions: bool,
    schemaEmpty: bool, baseline: string, now: int, newObject: nat, failingBatch: nat)

  /** Why an operation refuses. */
  datatype Refusal =
    | AdjudicatedOperationCannotReplay
    | ApprovedEmptyBaselineRequired
    | BatchChangedTransactionBoundary
    | DurableReceiptConflict
    | InvalidRecoveryArtifact
    | MetadataMismatch
    | ObjectAlreadyExists
    | OperationBusy
    | PendingOperationBlocksApply
    | PrimaryKeyViolation
    | ReceiptUncommitted
    | RecoveryCommitNotObserved
    | RecoveryEmptyBaselineChanged
    | RecoveryOriginalReceiptChanged
    | RecoveryOtherSqlSessions
    | RecoveryQuiescenceEvidenceExpired
    | RecoveryReceiptConflict
    | RecoveryRequiresEmptyRollback
    | RecoveryRequiresSingleOriginalReceipt
    | StartedReceiptChanged
    | TargetMismatch

  datatype Outcome =
    | ReadBack                  // a committed receipt was found and its metadata matched
    | StartRecorded
    | Completed
    | Adjudicated
    | Refused(code: Refusal)

  // ---- reads ---------------------------------------------------------------

  datatype Lookup = Missing | Found(status: Status) | Conflict

  function ReceiptOf(t: Tables, b: Bundle): Lookup {
    if t.receiptsObject.None? || b.operationId !in t.receipts then Missing
    else
      var r := t.receipts[b.operationId];
      if r.fingerprint == b && r.source == b.sources then Found(r.status) else Conflict
  }

  predicate Resolves(t: Tables, id: nat)
    requires id in t.receipts
  {
    && t.recoveries.Some?
    && id in t.recoveries.value
    && t.recoveries.value[id].originalFingerprint == t.receipts[id].fingerprint
    && t.recoveries.value[id].originalSource == t.receipts[id].source
  }

  predicate IdentityCommitted(t: Tables, i: Identity) {
    && i.operationId in t.receipts
    && t.receipts[i.operationId].fingerprint == i.fingerprint
    && t.receipts[i.operationId].source == i.source
    && t.receipts[i.operationId].status == Committed
  }

  /** The started receipts that block `b`: the fence both protocols consult. */
  function Pending(t: Tables, b: Bundle): set<nat> {
    set id | id in t.receipts && t.receipts[id].status == Started
      && !(Resolves(t, id)
           && (t.recoveries.value[id].replacement == IdentityOf(b)
               || IdentityCommitted(t, t.recoveries.value[id].replacement)))
  }

  predicate OriginalUnchanged(t: Tables, req: RecoveryRequest) {
    && t.receiptsObject == Some(req.receiptObject)
    && req.original.operationId in t.receipts
    && t.receipts[req.original.operationId]
       == Receipt(req.original.fingerprint, req.original.source, Started, req.originalStartedAt)
  }

  function RowOf(req: RecoveryRequest): Resolution {
    Resolution(req.original.fingerprint, req.original.source, req.replacement, req, req.receiptObject)
  }

  datatype RecoveryLookup = NoRow | Matching | OtherRow

  function ResolutionOf(t: Tables, req: RecoveryRequest): RecoveryLookup {
    if t.recoveries.None? || req.original.operationId !in t.recoveries.value then NoRow
    else if t.recoveries.value[req.original.operationId] == RowOf(req) then Matching
    else OtherRow
  }

  // ---- transactions --------------------------------------------------------

  /** Apply, first transaction: record `started` unless something is pending. */
  function StartTx(t: Tables, b: Bundle, g: Probe): (Tables, Outcome) {
    if !g.targetMatches then (t, Refused(TargetMismatch))
    else if g.lockBusy then (t, Refused(OperationBusy))
    else match ReceiptOf(t, b)
      case Conflict => (t, Refused(DurableReceiptConflict))
      case Found(Committed) =>
        (t, if g.metadataMatches then ReadBack else Refused(MetadataMismatch))
      case Found(Started) => (t, Refused(PendingOperationBlocksApply))
      case Missing =>
        if Pending(t, b) != {} then (t, Refused(PendingOperationBlocksApply))
        else if b.operationId in t.receipts then (t, Refused(PrimaryKeyViolation))
        else
          (t.(receiptsObject := if t.receiptsObject.None? then Some(g.newObject) else t.receiptsObject,
              receipts := t.receipts[b.operationId := Receipt(b, b.sources, Started, g.now)]),
           StartRecorded)
  }

  function Entries(b: Bundle): (r: seq<Installed>)
    ensures |r| == |b.batches|
  {
    seq(|b.batches|, i requires 0 <= i < |b.batches| => Installed(b.operationId, b.batches[i]))
  }

  /** Apply, second transaction: every batch and the receipt, or nothing. */
  function CompleteTx(t: Tables, b: Bundle, g: Probe): (Tables, Outcome) {
    if !g.targetMatches then (t, Refused(TargetMismatch))
    else if g.lockBusy then (t, Refused(OperationBusy))
    else if ReceiptOf(t, b) == Conflict then (t, Refused(DurableReceiptConflict))
    else if ReceiptOf(t, b) != Found(Started) then (t, Refused(StartedReceiptChanged))
    else if t.recoveries.Some? && b.operationId in t.recoveries.value
      then (t, Refused(AdjudicatedOperationCannotReplay))
    else if g.failingBatch < |b.batches| then (t, Refused(BatchChangedTransactionBoundary))
    else if !g.metadataMatches then (t, Refused(MetadataMismatch))
    else
      (t.(receipts := t.receipts[b.operationId := t.receipts[b.operationId].(status := Committed)],
          installed := t.installed + Entries(b)),
       Completed)
  }

  /** Recovery: adjudicate a stuck original, or read the same adjudication back. */
  function RecoverTx(t: Tables, b: Bundle, req: RecoveryRequest, g: Probe): (Tables, Outcome) {
    if !Admissible(req, b) then (t, Refused(InvalidRecoveryArtifact))
    else if !g.targetMatches then (t, Refused(TargetMismatch))
    else if g.lockBusy then (t, Refused(OperationBusy))
    else if !OriginalUnchanged(t, req) then (t, Refused(RecoveryOriginalReceiptChanged))
    else match ResolutionOf(t, req)
      case Matching => (t, Adjudicated)
      case OtherRow => (t, Refused(RecoveryReceiptConflict))
      case NoRow =>
        if !(req.observedAt <= g.now < req.expiresAt) then (t, Refused(RecoveryQuiescenceEvidenceExpired))
        else if g.otherSessions then (t, Refused(RecoveryOtherSqlSessions))
        else if !g.schemaEmpty then (t, Refused(RecoveryRequiresEmptyRollback))
        else if |t.receipts| != 1 then (t, Refused(RecoveryRequiresSingleOriginalReceipt))
        else if req.emptyBaseline.None? then (t, Refused(ApprovedEmptyBaselineRequired))
        else if req.emptyBaseline.value != g.baseline then (t, Refused(RecoveryEmptyBaselineChanged))
        else if t.recoveries.Some? then (t, Refused(ObjectAlreadyExists))
        else (t.(recoveries := Some(map[req.original.operationId := RowOf(req)])), Adjudicated)
  }

  /** The read-only lookups, in the words the operator sees. */
  function Reconcile(t: Tables, b: Bundle, g: Probe): Outcome {
    if !g.targetMatches then Refused(TargetMismatch)
    else if ReceiptOf(t, b) == Conflict then Refused(DurableReceiptConflict)
    else if ReceiptOf(t, b) != Found(Committed) then Refused(ReceiptUncommitted)
    else if !g.metadataMatches then Refused(MetadataMismatch)
    else ReadBack
  }

  datatype RecoveryReport = MatchingReport | MissingReport | ConflictReport | RefusedReport

  function ReconcileRecovery(t: Tables, b: Bundle, req: RecoveryRequest, g: Probe): RecoveryReport {
    if !Admissible(req, b) || !g.targetMatches then RefusedReport
    else if !OriginalUnchanged(t, req) then ConflictReport
    else match ResolutionOf(t, req)
      case Matching => MatchingReport
      case OtherRow => ConflictReport
      case NoRow => MissingReport
  }

  // ---- what the transactions decide, in the words of the tables -------------------------------

  /** The receipt of this very bundle, in this status. */
  ghost predicate Carries(t: Tables, b: Bundle, status: Status) {
    && t.receiptsObject.Some? && b.operationId in t.receipts
    && t.receipts[b.operationId].fingerprint == b && t.receipts[b.operationId].source == b.sources
    && t.receipts[b.operationId].status == status
  }

  /** The started receipt `id` no longer stands in the way of `b`: it was adjudicated, and either `b` is the
      replacement or the replacement is committed. */
  ghost predicate Settled(t: Tables, b: Bundle, id: nat)
    requires id in t.receipts
  {
    && t.recoveries.Some? && id in t.recoveries.value
    && var row := t.recoveries.value[id];
      && row.originalFingerprint == t.receipts[id].fingerprint && row.originalSource == t.receipts[id].source
      && (row.replacement == Identity(b.operationId, b, b.sources)
          || exists other | other in t.receipts ::
               && other == row.replacement.operationId && t.receipts[other].status == Committed
               && t.receipts[other].fingerprint == row.replacement.fingerprint
               && t.receipts[other].source == row.replacement.source)
  }

  ghost predicate Startable(t: Tables, b: Bundle, g: Probe) {
    && g.targetMatches && !g.lockBusy && b.operationId !in t.receipts
    && forall id | id in t.receipts && t.receipts[id].status == Started :: Settled(t, b, id)
  }

  ghost predicate Completable(t: Tables, b: Bundle, g: Probe) {
    && g.targetMatches && !g.lockBusy && Carries(t, b, Started)
    && (t.recoveries.Some? ==> b.operationId !in t.recoveries.value)
    && g.failingBatch >= |b.batches| && g.metadataMatches
  }

  /** The original is as the request says, and the request names this replacement. */
  ghost predicate Recoverable(t: Tables, b: Bundle, req: RecoveryRequest, g: Probe) {
    && g.targetMatches && !g.lockBusy
    && req.original.operationId != req.replacement.operationId
    && req.observedAt < req.expiresAt <= req.observedAt + 900
    && req.replacement == Identity(b.operationId, b, b.sources)
    && t.receiptsObject == Some(req.receiptObject) && req.original.operationId in t.receipts
    && var r := t.receipts[req.original.operationId];
      && r.fingerprint == req.original.fingerprint && r.source == req.original.source
      && r.status == Started && r.startedAt == req.originalStartedAt
  }

  /** The very adjudication that the request asks for is recorded. */
  ghost predicate Recorded(t: Tables, req: RecoveryRequest) {
    && t.recoveries.Some? && req.original.operationId in t.recoveries.value
    && t.recoveries.value[req.original.operationId]
       == Resolution(req.original.fingerprint, req.original.source, req.replacement, req, req.receiptObject)
  }

  /** The evidence for a first adjudication is in force. */
  ghost predicate Evidenced(t: Tables, req: RecoveryRequest, g: Probe) {
    && t.recoveries.None? && req.observedAt <= g.now && g.now < req.expiresAt && !g.otherSessions && g.schemaEmpty
    && t.receipts.Keys == {req.original.operationId} && req.emptyBaseline == Some(g.baseline)
  }

  lemma OneReceipt(t: Tables, o: nat)
    requires o in t.receipts
    ensures |t.receipts| == 1 <==> t.receipts.Keys == {o}
  {
    assert |t.receipts.Keys| == |t.receipts|;
    if |t.receipts| == 1 {
      assert |t.receipts.Keys - {o}| == 0;
      assert t.receipts.Keys == {o} + (t.receipts.Keys - {o});
    }
  }

  /** A start is recorded exactly when the operation is new and every started receipt is settled for it; a
      committed one is read back exactly with its metadata; nothing else changes anything. */
  lemma StartsExactlyWhen(t: Tables, b: Bundle, g: Probe)
    requires t.receiptsObject.None? ==> t.receipts == map[]
    ensures var (u, out) := StartTx(t, b, g);
      && (out == StartRecorded <==> Startable(t, b, g))
      && (out == ReadBack <==> g.targetMatches && !g.lockBusy && Carries(t, b, Committed) && g.metadataMatches)
      && (out == StartRecorded || out == ReadBack || out.Refused?)
      && (out != StartRecorded ==> u == t)
      && (out == StartRecorded ==>
            && u.receiptsObject == (if t.receiptsObject.Some? then t.receiptsObject else Some(g.newObject))
            && u.receipts == t.receipts[b.operationId := Receipt(b, b.sources, Started, g.now)]
            && u.recoveries == t.recoveries && u.installed == t.installed)
  {
    forall id | id in t.receipts && t.receipts[id].status == Started
      ensures id in Pending(t, b) <==> !Settled(t, b, id)
    {
    }
    if Pending(t, b) != {} {
      var id :| id in Pending(t, b);
      assert !Settled(t, b, id);
    }
  }

  /** A completion installs every batch and commits the receipt exactly when it may; otherwise nothing changes. */
  lemma CompletesExactlyWhen(t: Tables, b: Bundle, g: Probe)
    ensures var (u, out) := CompleteTx(t, b, g);
      && (out == Completed <==> Completable(t, b, g))
      && (out == Completed || out.Refused?)
      && (out != Completed ==> u == t)
      && (out == Completed ==>
            && u.receiptsObject == t.receiptsObject && u.recoveries == t.recoveries
            && u.receipts == t.receipts[b.operationId := t.receipts[b.operationId].(status := Committed)]
            && |u.installed| == |t.installed| + |b.batches| && u.installed[..|t.installed|] == t.installed
            && forall i | 0 <= i < |b.batches| ::
                 u.installed[|t.installed| + i] == Installed(b.operationId, b.batches[i]))
  {
  }

  /** An adjudication succeeds exactly when it is recorded already or the evidence for it is in force; it adds
      the one row in the second case, and changes nothing otherwise. */
  lemma AdjudicatesExactlyWhen(t: Tables, b: Bundle, req: RecoveryRequest, g: Probe)
    ensures var (u, out) := RecoverTx(t, b, req, g);
      && (out == Adjudicated <==> Recoverable(t, b, req, g) && (Recorded(t, req) || Evidenced(t, req, g)))
      && (out == Adjudicated || out.Refused?)
      && (u == t || (out == Adjudicated && t.recoveries.None?))
      && (out == Adjudicated ==>
            Recorded(u, req) && u.recoveries.value.Keys == (if t.recoveries.Some? then t.recoveries.value.Keys
                                                            else {req.original.operationId}))
      && u.receiptsObject == t.receiptsObject && u.receipts == t.receipts && u.installed == t.installed
  {
    if req.original.operationId in t.receipts {
      OneReceipt(t, req.original.operationId);
    }
  }

  /** What a refusal says was the matter. */
  ghost predicate IsTrueOf(code: Refusal, t: Tables, b: Bundle, g: Probe) {
    match code
    case TargetMismatch => !g.targetMatches
    case OperationBusy => g.lockBusy
    case MetadataMismatch => !g.metadataMatches
    case DurableReceiptConflict =>
      && b.operationId in t.receipts
      && (t.receipts[b.operationId].fingerprint != b || t.receipts[b.operationId].source != b.sources)
    case PendingOperationBlocksApply =>
      exists id | id in t.receipts :: t.receipts[id].status == Started && (id == b.operationId || !Settled(t, b, id))
    case StartedReceiptChanged => !Carries(t, b, Started)
    case AdjudicatedOperationCannotReplay => t.recoveries.Some? && b.operationId in t.recoveries.value
    case BatchChangedTransactionBoundary => g.failingBatch < |b.batches|
    case _ => false
  }

  lemma RefusalsAreTrue(t: Tables, b: Bundle, g: Probe)
    requires t.receiptsObject.None? ==> t.receipts == map[]
    ensures StartTx(t, b, g).1.Refused? ==> IsTrueOf(StartTx(t, b, g).1.code, t, b, g)
    ensures CompleteTx(t, b, g).1.Refused? ==> IsTrueOf(CompleteTx(t, b, g).1.code, t, b, g)
  {
    if Pending(t, b) != {} {
      var id :| id in Pending(t, b);
      assert !Settled(t, b, id);
    }
  }

  /** A read-back succeeds exactly on the committed receipt of this bundle with its metadata, and says why not. */
  lemma ReadsBackExactlyWhen(t: Tables, b: Bundle, g: Probe)
    ensures Reconcile(t, b, g) == ReadBack <==> g.targetMatches && Carries(t, b, Committed) && g.metadataMatches
    ensures Reconcile(t, b, g).Refused? <==> Reconcile(t, b, g) != ReadBack
    ensures Reconcile(t, b, g) == Refused(ReceiptUncommitted) ==> !Carries(t, b, Committed)
  {
  }

  /** The read-only lookup: matching, missing or in conflict, by what is recorded of the original. */
  lemma LookupReportsExactly(t: Tables, b: Bundle, req: RecoveryRequest, g: Probe)
    ensures var report := ReconcileRecovery(t, b, req, g); var good := g.(targetMatches := true, lockBusy := false);
      && (report == MatchingReport <==> g.targetMatches && Recoverable(t, b, req, good) && Recorded(t, req))
      && (report == MissingReport <==>
            && g.targetMatches && Recoverable(t, b, req, good)
            && (t.recoveries.None? || req.original.operationId !in t.recoveries.value))
      && (!g.targetMatches ==> report == RefusedReport)
  {
  }

  // ---- the same transactions, statement by statement -----------------------

  class Database {
    var receiptsObject: Option<nat>
    var receipts: map<nat, Receipt>
    var recoveries: Option<map<nat, Resolution>>
    var installed: seq<Installed>

    function Value(): Tables
      reads this
    {
      Tables(receiptsObject, receipts, recoveries, installed)
    }

    constructor ()
      ensures Value() == EMPTY
    {
      receiptsObject, receipts, recoveries, installed := None, map[], None, [];
    }

    method RecordStart(b: Bundle, g: Probe) returns (out: Outcome)
      modifies this
      ensures (Value(), out) == StartTx(old(Value()), b, g)
      ensures old(receiptsObject.Some? || receipts == map[]) ==>
                && (out == StartRecorded <==> Startable(old(Value()), b, g))
                && (out == ReadBack <==>
                      g.targetMatches && !g.lockBusy && Carries(old(Value()), b, Committed) && g.metadataMatches)
      ensures out != StartRecorded ==> Value() == old(Value())
      ensures out == StartRecorded ==>
                && receipts == old(receipts)[b.operationId := Receipt(b, b.sources, Started, g.now)]
                && recoveries == old(recoveries) && installed == old(installed)
    {
      if receiptsObject.Some? || receipts == map[] {
        StartsExactlyWhen(Value(), b, g);
      }
      if !g.targetMatches { return Refused(TargetMismatch); }
      if g.lockBusy { return Refused(OperationBusy); }
      var objectBefore := receiptsObject;
      if receiptsObject.None? {
        receiptsObject := Some(g.newObject);
      }
      if b.operationId in receipts && objectBefore.Some? {
        var r := receipts[b.operationId];
        if r.fingerprint != b || r.source != b.sources {
          return Refused(DurableReceiptConflict);
        }
        if r.status == Committed {
          return if g.metadataMatches then ReadBack else Refused(MetadataMismatch);
        }
        return Refused(PendingOperationBlocksApply);
      }
      assert Pending(Value(), b) == Pending(old(Value()), b);
      if Pending(Value(), b) != {} {
        receiptsObject := objectBefore;
        return Refused(PendingOperationBlocksApply);
      }
      if b.operationId in receipts {
        receiptsObject := objectBefore;
        return Refused(PrimaryKeyViolation);
      }
      receipts := receipts[b.operationId := Receipt(b, b.sources, Started, g.now)];
      return StartRecorded;
    }

    method InstallAndComplete(b: Bundle, g: Probe) returns (out: Outcome)
      modifies this
      ensures (Value(), out) == CompleteTx(old(Value()), b, g)
      ensures out == Completed <==> Completable(old(Value()), b, g)
      ensures out != Completed ==> Value() == old(Value())
      ensures out == Completed ==>
                && Carries(Value(), b, Committed) && recoveries == old(recoveries)
                && |installed| == |old(installed)| + |b.batches| && old(installed) <= installed
                && forall i | 0 <= i < |b.batches| ::
                     installed[|old(installed)| + i] == Installed(b.operationId, b.batches[i])
    {
      CompletesExactlyWhen(Value(), b, g);
      if !g.targetMatches { return Refused(TargetMismatch); }
      if g.lockBusy { return Refused(OperationBusy); }
      var state := ReceiptOf(Value(), b);
      if state == Conflict { return Refused(DurableReceiptConflict); }
      if state != Found(Started) { return Refused(StartedReceiptChanged); }
      if recoveries.Some? && b.operationId in recoveries.value {
        return Refused(AdjudicatedOperationCannotReplay);
      }
      var before := installed;
      var i := 0;
      while i < |b.batches|
        invariant 0 <= i <= |b.batches| && i <= g.failingBatch
        invariant installed == before + Entries(b)[..i]
        invariant receiptsObject == old(receiptsObject) && receipts == old(receipts) && recoveries == old(recoveries)
      {
        if i == g.failingBatch {
          installed := before;
          return Refused(BatchChangedTransactionBoundary);
        }
        installed := installed + [Installed(b.operationId, b.batches[i])];
        assert Entries(b)[..i + 1] == Entries(b)[..i] + [Installed(b.operationId, b.batches[i])];
        i := i + 1;
      }
      assert Entries(b)[..i] == Entries(b);
      if !g.metadataMatches {
        installed := before;
        return Refused(MetadataMismatch);
      }
      receipts := receipts[b.operationId := receipts[b.operationId].(status := Committed)];
      return Completed;
    }

    method Recover(b: Bundle, req: RecoveryRequest, g: Probe) returns (out: Outcome)
      modifies this
      ensures (Value(), out) == RecoverTx(old(Value()), b, req, g)
      ensures out == Adjudicated <==>
                && Recoverable(old(Value()), b, req, g)
                && (Recorded(old(Value()), req) || Evidenced(old(Value()), req, g))
      ensures out == Adjudicated ==> Recorded(Value(), req)
      ensures Value() == old(Value()) || (out == Adjudicated && old(recoveries).None?)
    {
      AdjudicatesExactlyWhen(Value(), b, req, g);
      if !Admissible(req, b) { return Refused(InvalidRecoveryArtifact); }
      if !g.targetMatches { return Refused(TargetMismatch); }
      if g.lockBusy { return Refused(OperationBusy); }
      if !OriginalUnchanged(Value(), req) { return Refused(RecoveryOriginalReceiptChanged); }
      var found := ResolutionOf(Value(), req);
      if found == OtherRow { return Refused(RecoveryReceiptConflict); }
      if found == NoRow {
        if !(req.observedAt <= g.now < req.expiresAt) { return Refused(RecoveryQuiescenceEvidenceExpired); }
        if g.otherSessions { return Refused(RecoveryOtherSqlSessions); }
        if !g.schemaEmpty { return Refused(RecoveryRequiresEmptyRollback); }
        if |receipts| != 1 { return Refused(RecoveryRequiresSingleOriginalReceipt); }
        if req.emptyBaseline.None? { return Refused(ApprovedEmptyBaselineRequired); }
        if req.emptyBaseline.value != g.baseline { return Refused(RecoveryEmptyBaselineChanged); }
        if recoveries.Some? { return Refused(ObjectAlreadyExists); }
        recoveries := Some(map[]);
        recoveries := Some(recoveries.value[req.original.operationId := RowOf(req)]);
      }
      return Adjudicated;
    }
  }
}
