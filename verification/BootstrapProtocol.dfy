/**
 Any number of apply and recover processes over the shared tables.

 A process is paused between its transactions for as long as the schedule
 likes, may die at any point, and may lose the acknowledgement of a commit (it
 then dies too, because the driver reports the commit as uncertain). Every
 theorem is about every schedule, that is, every finite sequence of steps.
 */
module BootstrapProtocol {
  import opened Options
  import opened BootstrapStore

  // ---- processes and schedules ----------------------------------------------

  datatype Pc =
    | AtStart
    | AtInstall(b: Bundle)                          // start acknowledged, install pending
    | AtReconcile(b: Bundle)                        // install acknowledged, read-back pending
    | AtRecoverReadback(b: Bundle, req: RecoveryRequest)
    | Finished(outcome: Outcome)
    | Dead

  datatype World = World(tables: Tables, procs: map<nat, Pc>) {
    function PcOf(p: nat): Pc { if p in procs then procs[p] else AtStart }
  }

  datatype Step =
    | Apply(p: nat, b: Bundle, g: Probe, acked: bool)
    | Install(p: nat, g: Probe, acked: bool)
    | Recover(p: nat, b: Bundle, req: RecoveryRequest, g: Probe, acked: bool)
    | ReadBackStep(p: nat, g: Probe)
    | Crash(p: nat)

  const INITIAL := World(EMPTY, map[])

  /** The process after a transaction: uncertain commits kill it, refusals end it. */
  function After(outcome: Outcome, acked: bool, next: Pc): Pc {
    if outcome.Refused? then Finished(outcome)
    else if !acked then Dead
    else next
  }

  function Next(w: World, s: Step): World {
    match s
    case Apply(p, b, g, acked) =>
      if w.PcOf(p) != AtStart then w
      else
        var (t, out) := StartTx(w.tables, b, g);
        World(t, w.procs[p := After(out, acked, if out == StartRecorded then AtInstall(b) else Finished(out))])
    case Install(p, g, acked) =>
      if !w.PcOf(p).AtInstall? then w
      else
        var b := w.PcOf(p).b;
        var (t, out) := CompleteTx(w.tables, b, g);
        World(t, w.procs[p := After(out, acked, AtReconcile(b))])
    case Recover(p, b, req, g, acked) =>
      if w.PcOf(p) != AtStart then w
      else
        var (t, out) := RecoverTx(w.tables, b, req, g);
        World(t, w.procs[p := After(out, acked, AtRecoverReadback(b, req))])
    case ReadBackStep(p, g) =>
      match w.PcOf(p) {
        case AtReconcile(b) => w.(procs := w.procs[p := Finished(Reconcile(w.tables, b, g))])
        case AtRecoverReadback(b, req) => w.(procs := w.procs[p := Finished(RecoverReadback(w.tables, req, g))])
        case _ => w
      }
    case Crash(p) => w.(procs := w.procs[p := Dead])
  }

  /** What `recover` checks again, outside the transaction, before reporting. */
  function RecoverReadback(t: Tables, req: RecoveryRequest, g: Probe): Outcome {
    if !g.targetMatches then Refused(TargetMismatch)
    else if !OriginalUnchanged(t, req) then Refused(RecoveryOriginalReceiptChanged)
    else match ResolutionOf(t, req)
      case Matching => Adjudicated
      case OtherRow => Refused(RecoveryReceiptConflict)
      case NoRow => Refused(RecoveryCommitNotObserved)
  }

  function Run(w: World, steps: seq<Step>): World
    decreases |steps|
  {
    if steps == [] then w else Next(Run(w, steps[..|steps| - 1]), steps[|steps| - 1])
  }

  lemma {:induction false} RunSplit(w: World, a: seq<Step>, b: seq<Step>)
    ensures Run(w, a + b) == Run(Run(w, a), b)
    decreases |b|
  {
    if b == [] {
      assert a + b == a;
    } else {
      var last := |b| - 1;
      assert (a + b)[..|a + b| - 1] == a + b[..last];
      RunSplit(w, a, b[..last]);
    }
  }

  // ---- the inductive invariant -----------------------------------------------

  predicate Holds(t: Tables, b: Bundle, status: Status) {
    ReceiptOf(t, b) == Found(status)
  }

  predicate StartedAt(t: Tables, id: nat) {
    id in t.receipts && t.receipts[id].status == Started
  }

  ghost predicate WellKeyed(t: Tables) {
    && (t.receiptsObject.None? ==> t.receipts == map[])
    && forall id :: id in t.receipts ==>
         t.receipts[id].fingerprint.operationId == id && t.receipts[id].source == t.receipts[id].fingerprint.sources
  }

  /** At most one started receipt besides `spared`. */
  ghost predicate OnePending(t: Tables, spared: set<nat>) {
    forall i, j :: StartedAt(t, i) && StartedAt(t, j) && i !in spared && j !in spared ==> i == j
  }

  /** `o` is the one adjudicated original; its replacement is at one of three stages. */
  ghost predicate AdjudicatedAt(t: Tables, o: nat) {
    && t.recoveries.Some? && t.recoveries.value.Keys == {o}
    && var row := t.recoveries.value[o];
    && row == RowOf(row.request) && Admissible(row.request, row.replacement.fingerprint)
    && row.request.original.operationId == o
    && OriginalUnchanged(t, row.request)
    && var n := row.replacement.operationId;
    && (n !in t.receipts ==> t.receipts.Keys == {o})
    && (n in t.receipts ==> ReceiptOf(t, row.replacement.fingerprint).Found?)
    && (StartedAt(t, n) ==> t.receipts.Keys == {o, n})
    && OnePending(t, {o})
  }

  ghost predicate Fenced(t: Tables) {
    && WellKeyed(t)
    && (t.recoveries.None? ==> OnePending(t, {}))
    && (t.recoveries.Some? ==> exists o :: AdjudicatedAt(t, o))
  }

  /** Batches of the operations in `order`, one whole operation after the other. */
  function Flatten(t: Tables, order: seq<nat>): seq<Installed>
    requires forall id :: id in order ==> id in t.receipts
  {
    if order == [] then []
    else Flatten(t, order[..|order| - 1]) + Entries(t.receipts[order[|order| - 1]].fingerprint)
  }

  /** `order` lists every committed operation exactly once, and explains the log. */
  ghost predicate LogExplainedBy(t: Tables, order: seq<nat>) {
    && (forall i, j :: 0 <= i < j < |order| ==> order[i] != order[j])
    && (forall id :: id in order <==> id in t.receipts && t.receipts[id].status == Committed)
    && t.installed == Flatten(t, order)
  }

  ghost predicate ProcessMatches(t: Tables, pc: Pc) {
    match pc
    case AtInstall(b) => Holds(t, b, Started)
    case AtReconcile(b) => Holds(t, b, Committed)
    case AtRecoverReadback(b, req) => OriginalUnchanged(t, req) && ResolutionOf(t, req) == Matching
    case _ => true
  }

  /** Each process is where the tables say it can be; no operation has two installers. */
  ghost predicate ProcessesMatch(w: World) {
    && (forall p :: p in w.procs ==> ProcessMatches(w.tables, w.procs[p]))
    && forall p, q | p in w.procs && q in w.procs && w.procs[p].AtInstall? && w.procs[q].AtInstall? ::
         w.procs[p].b.operationId == w.procs[q].b.operationId ==> p == q
  }

  ghost predicate Inv(w: World) {
    && Fenced(w.tables)
    && (exists order :: LogExplainedBy(w.tables, order))
    && ProcessesMatch(w)
  }

  // ---- each transaction keeps the fence ---------------------------------------

  lemma StartKeepsFence(t: Tables, b: Bundle, g: Probe)
    requires Fenced(t)
    ensures Fenced(StartTx(t, b, g).0)
  {
    var (u, out) := StartTx(t, b, g);
    if out == StartRecorded {
      assert Pending(t, b) == {};
      assert forall id :: StartedAt(t, id) ==> id !in Pending(t, b);
      if t.recoveries.Some? {
        var o :| AdjudicatedAt(t, o);
        assert o !in Pending(t, b);
        assert AdjudicatedAt(u, o);
      }
    }
  }

  lemma CompleteKeepsFence(t: Tables, b: Bundle, g: Probe)
    requires Fenced(t)
    ensures Fenced(CompleteTx(t, b, g).0)
  {
    var (u, out) := CompleteTx(t, b, g);
    if out == Completed {
      assert forall id :: StartedAt(u, id) ==> StartedAt(t, id);
      if t.recoveries.Some? {
        var o :| AdjudicatedAt(t, o);
        assert AdjudicatedAt(u, o);
      }
    }
  }

  lemma SingletonKeys<V>(m: map<nat, V>, o: nat)
    requires |m| == 1 && o in m
    ensures m.Keys == {o}
  {
    assert |m.Keys| == |m|;
    assert |m.Keys - {o}| == 0;
    assert m.Keys == {o} + (m.Keys - {o});
  }

  lemma RecoverKeepsFence(t: Tables, b: Bundle, req: RecoveryRequest, g: Probe)
    requires Fenced(t)
    ensures Fenced(RecoverTx(t, b, req, g).0)
  {
    var (u, out) := RecoverTx(t, b, req, g);
    if u != t {
      SingletonKeys(t.receipts, req.original.operationId);
      assert AdjudicatedAt(u, req.original.operationId);
    }
  }

  // ---- each transaction keeps the log -----------------------------------------

  lemma {:induction false} FlattenFrame(t: Tables, u: Tables, order: seq<nat>)
    requires forall id | id in order ::
               id in t.receipts && id in u.receipts && t.receipts[id].fingerprint == u.receipts[id].fingerprint
    ensures Flatten(t, order) == Flatten(u, order)
  {
    if order != [] {
      FlattenFrame(t, u, order[..|order| - 1]);
    }
  }

  lemma CompleteKeepsLog(t: Tables, b: Bundle, g: Probe, order: seq<nat>) returns (order': seq<nat>)
    requires LogExplainedBy(t, order)
    ensures LogExplainedBy(CompleteTx(t, b, g).0, order')
  {
    var (u, out) := CompleteTx(t, b, g);
    order' := order;
    if out == Completed {
      order' := order + [b.operationId];
      assert order'[..|order|] == order;
      FlattenFrame(t, u, order);
      forall id ensures id in order' <==> id in u.receipts && u.receipts[id].status == Committed {
        assert id in order' <==> id in order || id == b.operationId;
      }
      assert forall id :: id in order' ==> id in u.receipts;
      assert order'[|order'| - 1] == b.operationId;
      assert u.receipts[b.operationId].fingerprint == b;
      assert Flatten(u, order') == Flatten(u, order) + Entries(b);
    }
  }

  lemma StartKeepsLog(t: Tables, b: Bundle, g: Probe, order: seq<nat>)
    requires LogExplainedBy(t, order)
    ensures LogExplainedBy(StartTx(t, b, g).0, order)
  {
    FlattenFrame(t, StartTx(t, b, g).0, order);
  }

  lemma RecoverKeepsLog(t: Tables, b: Bundle, req: RecoveryRequest, g: Probe, order: seq<nat>)
    requires LogExplainedBy(t, order)
    ensures LogExplainedBy(RecoverTx(t, b, req, g).0, order)
  {
    FlattenFrame(t, RecoverTx(t, b, req, g).0, order);
  }

  // ---- what a transaction may change: receipts advance, resolutions stay -------

  /** `u` is a possible later state of the tables `t`. */
  ghost predicate Advances(t: Tables, u: Tables) {
    && (t.receiptsObject.Some? ==> u.receiptsObject == t.receiptsObject)
    && (forall id | id in t.receipts :: id in u.receipts
          && (u.receipts[id] == t.receipts[id] || u.receipts[id] == t.receipts[id].(status := Committed)))
    && (t.recoveries.Some? ==> u.recoveries == t.recoveries)
    && (t.recoveries.Some? ==>
          forall id :: id in t.recoveries.value && id in t.receipts ==> u.receipts[id] == t.receipts[id])
    && t.installed <= u.installed
  }

  lemma StartAdvances(t: Tables, b: Bundle, g: Probe)
    requires Fenced(t)
    ensures Advances(t, StartTx(t, b, g).0)
  {
  }

  lemma CompleteAdvances(t: Tables, b: Bundle, g: Probe)
    requires Fenced(t)
    ensures Advances(t, CompleteTx(t, b, g).0)
  {
  }

  lemma RecoverEffect(t: Tables, b: Bundle, req: RecoveryRequest, g: Probe)
    ensures var u := RecoverTx(t, b, req, g).0;
            u == t || (t.recoveries.None? && u == t.(recoveries := u.recoveries))
  {
  }

  lemma RecoverAdvances(t: Tables, b: Bundle, req: RecoveryRequest, g: Probe)
    ensures Advances(t, RecoverTx(t, b, req, g).0)
  {
    RecoverEffect(t, b, req, g);
  }

  lemma NextAdvances(w: World, s: Step)
    requires Inv(w)
    ensures Advances(w.tables, Next(w, s).tables)
  {
    match s {
      case Apply(p, b, g, acked) => StartAdvances(w.tables, b, g);
      case Install(p, g, acked) =>
        if w.PcOf(p).AtInstall? { CompleteAdvances(w.tables, w.PcOf(p).b, g); }
      case Recover(p, b, req, g, acked) => RecoverAdvances(w.tables, b, req, g);
      case ReadBackStep(p, g) =>
      case Crash(p) =>
    }
  }

  lemma AdvancesTransitive(t: Tables, u: Tables, v: Tables)
    requires Advances(t, u) && Advances(u, v)
    ensures Advances(t, v)
  {
  }

  // ---- the invariant holds on every schedule ------------------------------------

  /** A process untouched by a transaction still matches, unless that transaction completed its operation. */
  lemma AdvanceKeepsProcess(t: Tables, u: Tables, pc: Pc)
    requires Fenced(t) && Advances(t, u) && ProcessMatches(t, pc)
    requires pc.AtInstall? ==> u.receipts[pc.b.operationId] == t.receipts[pc.b.operationId]
    ensures ProcessMatches(u, pc)
  {
  }

  lemma StartEffect(t: Tables, b: Bundle, g: Probe)
    ensures var (u, out) := StartTx(t, b, g);
            && (out == StartRecorded || u == t)
            && (out == StartRecorded ==> b.operationId !in t.receipts && Holds(u, b, Started))
            && (forall id | id in t.receipts :: id in u.receipts && u.receipts[id] == t.receipts[id])
            && (out == StartRecorded || out.Refused? || out == ReadBack)
  {
  }

  lemma CompleteEffect(t: Tables, b: Bundle, g: Probe)
    ensures var (u, out) := CompleteTx(t, b, g);
            && (out == Completed || (u == t && out.Refused?))
            && (out == Completed ==> Holds(u, b, Committed))
            && (forall id | id in t.receipts && id != b.operationId ::
                  id in u.receipts && u.receipts[id] == t.receipts[id])
  {
  }

  /** A transaction moves one process; the others still match if it left their operations alone. */
  lemma ProcessMoves(w: World, u: Tables, p: nat, pc: Pc)
    requires Fenced(w.tables) && ProcessesMatch(w) && Advances(w.tables, u) && ProcessMatches(u, pc)
    requires forall q | q in w.procs && q != p && w.procs[q].AtInstall? ::
               var id := w.procs[q].b.operationId;
               id in w.tables.receipts ==> u.receipts[id] == w.tables.receipts[id]
    requires forall q | q in w.procs && q != p && w.procs[q].AtInstall? && pc.AtInstall? ::
               w.procs[q].b.operationId != pc.b.operationId
    ensures ProcessesMatch(World(u, w.procs[p := pc]))
  {
    forall q | q in w.procs && q != p ensures ProcessMatches(u, w.procs[q]) {
      AdvanceKeepsProcess(w.tables, u, w.procs[q]);
    }
  }

  lemma ApplyKeepsProcesses(w: World, p: nat, b: Bundle, g: Probe, acked: bool)
    requires Fenced(w.tables) && ProcessesMatch(w) && w.PcOf(p) == AtStart
    ensures ProcessesMatch(Next(w, Apply(p, b, g, acked)))
  {
    var (u, out) := StartTx(w.tables, b, g);
    StartAdvances(w.tables, b, g);
    StartEffect(w.tables, b, g);
    InstallersHoldReceipts(w);
    ProcessMoves(w, u, p, After(out, acked, if out == StartRecorded then AtInstall(b) else Finished(out)));
  }

  lemma InstallersHoldReceipts(w: World)
    requires ProcessesMatch(w)
    ensures forall q | q in w.procs && w.procs[q].AtInstall? :: w.procs[q].b.operationId in w.tables.receipts
  {
    forall q | q in w.procs && w.procs[q].AtInstall? ensures w.procs[q].b.operationId in w.tables.receipts {
      assert ProcessMatches(w.tables, w.procs[q]);
    }
  }

  lemma InstallKeepsProcesses(w: World, p: nat, g: Probe, acked: bool)
    requires Fenced(w.tables) && ProcessesMatch(w) && w.PcOf(p).AtInstall?
    ensures ProcessesMatch(Next(w, Install(p, g, acked)))
  {
    var b := w.PcOf(p).b;
    var (u, out) := CompleteTx(w.tables, b, g);
    CompleteAdvances(w.tables, b, g);
    CompleteEffect(w.tables, b, g);
    ProcessMoves(w, u, p, After(out, acked, AtReconcile(b)));
  }

  lemma RecoverEstablishes(t: Tables, b: Bundle, req: RecoveryRequest, g: Probe)
    requires RecoverTx(t, b, req, g).1 == Adjudicated
    ensures ProcessMatches(RecoverTx(t, b, req, g).0, AtRecoverReadback(b, req))
    ensures RecoverTx(t, b, req, g).0.receipts == t.receipts
  {
  }

  lemma RecoverOutcomes(t: Tables, b: Bundle, req: RecoveryRequest, g: Probe)
    ensures RecoverTx(t, b, req, g).1.Refused? || RecoverTx(t, b, req, g).1 == Adjudicated
    ensures RecoverTx(t, b, req, g).1.Refused? ==> RecoverTx(t, b, req, g).0 == t
  {
  }

  lemma RecoverKeepsProcesses(w: World, p: nat, b: Bundle, req: RecoveryRequest, g: Probe, acked: bool)
    requires Fenced(w.tables) && ProcessesMatch(w) && w.PcOf(p) == AtStart
    ensures ProcessesMatch(Next(w, Recover(p, b, req, g, acked)))
  {
    var (u, out) := RecoverTx(w.tables, b, req, g);
    RecoverAdvances(w.tables, b, req, g);
    RecoverOutcomes(w.tables, b, req, g);
    if out == Adjudicated {
      RecoverEstablishes(w.tables, b, req, g);
    }
    ProcessMoves(w, u, p, After(out, acked, AtRecoverReadback(b, req)));
  }

  lemma ApplyKeepsInv(w: World, p: nat, b: Bundle, g: Probe, acked: bool)
    requires Inv(w) && w.PcOf(p) == AtStart
    ensures Inv(Next(w, Apply(p, b, g, acked)))
  {
    var order :| LogExplainedBy(w.tables, order);
    StartKeepsFence(w.tables, b, g);
    StartKeepsLog(w.tables, b, g, order);
    ApplyKeepsProcesses(w, p, b, g, acked);
  }

  lemma InstallKeepsInv(w: World, p: nat, g: Probe, acked: bool)
    requires Inv(w) && w.PcOf(p).AtInstall?
    ensures Inv(Next(w, Install(p, g, acked)))
  {
    var order :| LogExplainedBy(w.tables, order);
    CompleteKeepsFence(w.tables, w.PcOf(p).b, g);
    var order' := CompleteKeepsLog(w.tables, w.PcOf(p).b, g, order);
    InstallKeepsProcesses(w, p, g, acked);
  }

  lemma RecoverKeepsInv(w: World, p: nat, b: Bundle, req: RecoveryRequest, g: Probe, acked: bool)
    requires Inv(w) && w.PcOf(p) == AtStart
    ensures Inv(Next(w, Recover(p, b, req, g, acked)))
  {
    var order :| LogExplainedBy(w.tables, order);
    RecoverKeepsFence(w.tables, b, req, g);
    RecoverKeepsLog(w.tables, b, req, g, order);
    RecoverKeepsProcesses(w, p, b, req, g, acked);
  }

  lemma NextKeepsInv(w: World, s: Step)
    requires Inv(w)
    ensures Inv(Next(w, s))
  {
    match s {
      case Apply(p, b, g, acked) =>
        if w.PcOf(p) == AtStart { ApplyKeepsInv(w, p, b, g, acked); }
      case Install(p, g, acked) =>
        if w.PcOf(p).AtInstall? { InstallKeepsInv(w, p, g, acked); }
      case Recover(p, b, req, g, acked) =>
        if w.PcOf(p) == AtStart { RecoverKeepsInv(w, p, b, req, g, acked); }
      case ReadBackStep(p, g) =>
      case Crash(p) =>
    }
  }

  lemma {:induction false} RunKeepsInv(w: World, steps: seq<Step>)
    requires Inv(w)
    ensures Inv(Run(w, steps)) && Advances(w.tables, Run(w, steps).tables)
    decreases |steps|
  {
    if steps != [] {
      var prefix := steps[..|steps| - 1];
      RunKeepsInv(w, prefix);
      NextKeepsInv(Run(w, prefix), steps[|steps| - 1]);
      NextAdvances(Run(w, prefix), steps[|steps| - 1]);
      AdvancesTransitive(w.tables, Run(w, prefix).tables, Run(w, steps).tables);
    }
  }

  lemma InitialInv()
    ensures Inv(INITIAL)
  {
    assert LogExplainedBy(EMPTY, []);
  }

  lemma ReachableInv(steps: seq<Step>)
    ensures Inv(Run(INITIAL, steps))
  {
    InitialInv();
    RunKeepsInv(INITIAL, steps);
  }
}
