/**
 Consent over whole runs: every approval consumed was given for exactly what it says, was in time, and is
 carried by one performance.
 */
module ApprovalConsent {
  import opened Options
  import opened Ledgers
  import opened ApprovalGate
  import opened ApprovalRun

  /** The channel row that a consent stands for: approved by someone, for exactly this, and consumed in time. */
  ghost predicate Backed(rows: Rows, c: Consent) {
    && c.id in rows && rows[c.id].decision == "approve" && rows[c.id].responder != ""
    && rows[c.id].fingerprint == c.fingerprint && rows[c.id].consumedAt == Some(c.at) && c.at < rows[c.id].expires
  }

  ghost predicate AllBacked(rows: Rows, consents: seq<Consent>) {
    forall i | 0 <= i < |consents| :: Backed(rows, consents[i])
  }

  ghost predicate IdsDiffer(consents: seq<Consent>) {
    forall i, j | 0 <= i < j < |consents| :: consents[i].id != consents[j].id
  }

  /** A gated request that someone answered. */
  ghost predicate Answered(rows: Rows, request: Request) {
    && NeedsApproval(request.fingerprint.action)
    && request.id in rows && rows[request.id].decision != "" && rows[request.id].responder != ""
  }

  /** The gate keeps, under each decision handed out, a gated and answered request. */
  ghost predicate KeptAreAnswered(w: World) {
    forall d | d in w.requests :: d < w.nextDecision && Answered(w.rows, w.requests[d])
  }

  ghost predicate PendingIsAnswered(w: World) {
    w.pending.Some? ==> Answered(w.rows, w.pending.value.request)
  }

  /** What is pending is what the gate keeps under its decision. */
  ghost predicate PendingIsKept(w: World) {
    w.pending.Some? ==>
      && w.pending.value.decision.id < w.nextDecision
      && (w.pending.value.decision.id in w.requests ==>
            w.requests[w.pending.value.decision.id] == w.pending.value.request)
  }

  /** A gated call on its way to execution carries its own approval. */
  ghost predicate CallIsPending(w: World) {
    && (w.phase.Waiting? ==>
          NeedsApproval(w.phase.call.action) && w.phase.request.fingerprint == FingerprintOf(w.phase.call))
    && (w.phase.Rechecking? && NeedsApproval(w.phase.call.action) ==>
          w.pending.Some? && w.pending.value.request.fingerprint == FingerprintOf(w.phase.call))
  }

  /** A gated action has a consent for exactly itself. One that needs none may have spent another's. */
  predicate Licensed(p: Performance) {
    if NeedsApproval(p.call.action) then p.consent.Some? && p.consent.value.fingerprint == FingerprintOf(p.call)
    else p.consent.Some? ==> IsRemediation(p.call.action) && NeedsApproval(p.consent.value.fingerprint.action)
  }

  ghost predicate AllLicensed(w: World) {
    && (forall i | 0 <= i < |w.performed| :: Licensed(w.performed[i]))
    && (w.phase.Executing? ==> Licensed(w.phase.performance))
  }

  function ConsentsOf(performed: seq<Performance>): seq<Consent> {
    if performed == [] then []
    else
      ConsentsOf(performed[..|performed| - 1])
        + match performed[|performed| - 1].consent case Some(c) => [c] case None => []
  }

  function ConsentInHand(w: World): seq<Consent> {
    if w.phase.Executing? && w.phase.performance.consent.Some? then [w.phase.performance.consent.value] else []
  }

  /** The consents consumed are, in order, the ones performances carry: none is used twice and none is wasted. */
  ghost predicate ConsentsAreUsed(w: World) {
    w.consents == ConsentsOf(w.performed) + ConsentInHand(w)
  }

  lemma ChargingMovesOn(w: World, call: Call, spent: Consumed)
    ensures var v := ChargeSpent(w, call, spent);
      && v.rows == spent.rows && v.requests == spent.requests && v.pending == w.pending
      && v.nextDecision == w.nextDecision && (v.phase.Idle? || v.phase.Executing?)
  {}

  lemma RecheckKeepsRows(w: World, call: Call, passes: bool, stored: bool)
    ensures Keeps(w.rows, RecheckTx(w, call, passes, stored).rows)
  {
    if w.pending.Some? {
      SpendKeeps(w.requests, w.rows, w.pending.value.decision, w.utc, stored);
      ChargingMovesOn(w, call, SpendTx(w.requests, w.rows, w.pending.value.decision, w.utc, stored));
    }
  }

  lemma CheckKeepsRows(w: World, call: Call, passes: bool, stored: bool)
    ensures Keeps(w.rows, CheckTx(w, call, passes, stored).rows)
  {
    var request := Request(RequestId(w.runRequest, call.action), FingerprintOf(call), w.utc + w.approvalTimeout);
    OpenKeeps(w.rows, request, w.utc, stored);
  }

  lemma NextKeepsRows(w: World, s: Step)
    ensures Keeps(w.rows, Next(w, s).rows)
  {
    match s
    case Check(passes, stored) => if w.phase.Checking? { CheckKeepsRows(w, w.phase.call, passes, stored); }
    case Recheck(passes, stored) => if w.phase.Rechecking? { RecheckKeepsRows(w, w.phase.call, passes, stored); }
    case Others(op) => ApplyKeeps(w.rows, op, w.utc);
    case _ =>
  }

  // Consents are what consuming took, and stay so.

  /** Spending takes a row nobody consumed before, for the request that is kept under the decision. */
  lemma SpendingConsumes(w: World, d: Decision, stored: bool)
    requires KeptAreAnswered(w)
    ensures var spent := SpendTx(w.requests, w.rows, d, w.utc, stored);
      if spent.request.None? then spent.rows == w.rows
      else
        var c := Consent(spent.request.value.id, spent.request.value.fingerprint, w.utc);
        Backed(spent.rows, c) && c.id in w.rows && w.rows[c.id].consumedAt.None?
  {}

  /** The consents of `v` are those of `w`, or one more, for a row that was not consumed before. */
  ghost predicate OneConsentMore(w: World, v: World) {
    || v.consents == w.consents
    || (&& |v.consents| == |w.consents| + 1 && v.consents[..|w.consents|] == w.consents
        && var c := v.consents[|w.consents|];
          Backed(v.rows, c) && c.id in w.rows && w.rows[c.id].consumedAt.None?)
  }

  lemma RecheckConsumes(w: World, call: Call, passes: bool, stored: bool)
    requires KeptAreAnswered(w)
    ensures OneConsentMore(w, RecheckTx(w, call, passes, stored))
  {
    if w.pending.Some? {
      SpendingConsumes(w, w.pending.value.decision, stored);
    }
  }

  ghost predicate ConsentsHold(w: World) {
    AllBacked(w.rows, w.consents) && IdsDiffer(w.consents)
  }

  lemma BackedStays(before: Rows, after: Rows, consents: seq<Consent>)
    requires AllBacked(before, consents) && Keeps(before, after)
    ensures AllBacked(after, consents)
  {}

  lemma OneMoreConsentHolds(w: World, v: World)
    requires ConsentsHold(w) && OneConsentMore(w, v) && Keeps(w.rows, v.rows)
    ensures ConsentsHold(v)
  {
    BackedStays(w.rows, v.rows, w.consents);
  }

  lemma NextKeepsConsents(w: World, s: Step)
    requires ConsentsHold(w) && KeptAreAnswered(w)
    ensures ConsentsHold(Next(w, s))
  {
    NextKeepsRows(w, s);
    if s.Recheck? && w.phase.Rechecking? {
      RecheckConsumes(w, w.phase.call, s.passes, s.stored);
    } else {
      OnlyRecheckConsumes(w, s);
    }
    OneMoreConsentHolds(w, Next(w, s));
  }

  lemma OnlyRecheckConsumes(w: World, s: Step)
    requires !(s.Recheck? && w.phase.Rechecking?)
    ensures Next(w, s).consents == w.consents
  {}

  // The gate's requests and the pending approval.

  ghost predicate GateHolds(w: World) {
    PendingIsAnswered(w) && KeptAreAnswered(w) && PendingIsKept(w) && CallIsPending(w)
  }

  lemma AnsweredStays(before: Rows, after: Rows, request: Request)
    requires Answered(before, request) && Keeps(before, after)
    ensures Answered(after, request)
  {}

  lemma PollKeepsAnswered(w: World)
    requires GateHolds(w) && w.phase.Waiting?
    ensures KeptAreAnswered(PollTx(w)) && PendingIsAnswered(PollTx(w))
  {}

  lemma PollKeepsPending(w: World)
    requires GateHolds(w) && w.phase.Waiting?
    ensures PendingIsKept(PollTx(w)) && CallIsPending(PollTx(w))
  {}

  lemma PollKeepsGate(w: World)
    requires GateHolds(w) && w.phase.Waiting?
    ensures GateHolds(PollTx(w))
  {
    PollKeepsAnswered(w);
    PollKeepsPending(w);
  }

  /** Writing to the channel and forgetting requests leaves the gate in order. */
  lemma GateHoldsOn(w: World, v: World)
    requires GateHolds(w) && Keeps(w.rows, v.rows) && v.nextDecision == w.nextDecision
    requires v.pending == w.pending || v.pending.None?
    requires forall d | d in v.requests :: d in w.requests && v.requests[d] == w.requests[d]
    requires CallIsPending(v)
    ensures GateHolds(v)
  {
    if v.pending.Some? {
      AnsweredStays(w.rows, v.rows, v.pending.value.request);
    }
    forall d | d in v.requests ensures d < v.nextDecision && Answered(v.rows, v.requests[d]) {
      AnsweredStays(w.rows, v.rows, w.requests[d]);
    }
  }

  lemma RecheckForgets(w: World, call: Call, passes: bool, stored: bool)
    ensures var v := RecheckTx(w, call, passes, stored);
      && v.pending == w.pending && v.nextDecision == w.nextDecision && !v.phase.Waiting? && !v.phase.Rechecking?
      && forall d | d in v.requests :: d in w.requests && v.requests[d] == w.requests[d]
  {
    if w.pending.Some? {
      SpendKeeps(w.requests, w.rows, w.pending.value.decision, w.utc, stored);
      ChargingMovesOn(w, call, SpendTx(w.requests, w.rows, w.pending.value.decision, w.utc, stored));
    }
  }

  lemma SeekForgets(w: World, call: Call, stored: bool)
    requires NeedsApproval(call.action)
    ensures var v := SeekTx(w, call, stored);
      && v.pending == w.pending && v.nextDecision == w.nextDecision && v.requests == w.requests
      && (v.phase == Idle
          || (v.phase.Waiting? && v.phase.call == call && v.phase.request.fingerprint == FingerprintOf(call)))
  {}

  lemma CheckForgets(w: World, call: Call, passes: bool, stored: bool)
    ensures var v := CheckTx(w, call, passes, stored);
      && (v.pending == w.pending || v.pending.None?) && v.nextDecision == w.nextDecision && v.requests == w.requests
      && CallIsPending(v)
  {
    if NeedsApproval(call.action) {
      SeekForgets(w.(pending := None), call, stored);
    }
  }

  lemma OtherStepsForget(w: World, s: Step)
    requires CallIsPending(w) && !s.Poll? && !s.Check? && !s.Recheck?
    ensures var v := Next(w, s);
      v.pending == w.pending && v.nextDecision == w.nextDecision && v.requests == w.requests && CallIsPending(v)
  {}

  lemma NextKeepsGate(w: World, s: Step)
    requires GateHolds(w)
    ensures GateHolds(Next(w, s))
  {
    NextKeepsRows(w, s);
    match s
    case Poll => if w.phase.Waiting? { PollKeepsGate(w); }
    case Check(passes, stored) =>
      if w.phase.Checking? {
        CheckForgets(w, w.phase.call, passes, stored);
        GateHoldsOn(w, Next(w, s));
      }
    case Recheck(passes, stored) =>
      if w.phase.Rechecking? {
        RecheckForgets(w, w.phase.call, passes, stored);
        GateHoldsOn(w, Next(w, s));
      }
    case _ =>
      OtherStepsForget(w, s);
      GateHoldsOn(w, Next(w, s));
  }

  // What performances carry.

  lemma ConsentsAppend(performed: seq<Performance>, p: Performance)
    ensures ConsentsOf(performed + [p]) == ConsentsOf(performed) + match p.consent case Some(c) => [c] case None => []
  {
    assert (performed + [p])[..|performed|] == performed;
  }

  ghost predicate LicencesHold(w: World) {
    AllLicensed(w) && ConsentsAreUsed(w)
  }

  lemma RecheckKeepsLicences(w: World, passes: bool, stored: bool)
    requires LicencesHold(w) && GateHolds(w) && Budgeted(w) && w.phase.Rechecking?
    ensures LicencesHold(RecheckTx(w, w.phase.call, passes, stored))
  {
    if w.pending.Some? {
      assert w.pending.value.decision.id in w.requests ==>
               w.requests[w.pending.value.decision.id] == w.pending.value.request;
    }
  }

  lemma PerformKeepsLicences(w: World)
    requires LicencesHold(w) && w.phase.Executing?
    ensures LicencesHold(PerformTx(w, w.phase.performance))
  {
    ConsentsAppend(w.performed, w.phase.performance);
  }

  lemma CheckKeepsLicences(w: World, passes: bool, stored: bool)
    requires LicencesHold(w) && w.phase.Checking?
    ensures LicencesHold(CheckTx(w, w.phase.call, passes, stored))
  {
    if NeedsApproval(w.phase.call.action) {
      SeekForgets(w.(pending := None), w.phase.call, stored);
    }
  }

  lemma PollKeepsLicences(w: World)
    requires LicencesHold(w) && w.phase.Waiting?
    ensures LicencesHold(PollTx(w))
  {}

  lemma OtherStepsKeepLicences(w: World, s: Step)
    requires LicencesHold(w) && !s.Recheck? && !s.Perform? && !s.Check? && !s.Poll?
    ensures LicencesHold(Next(w, s))
  {}

  lemma NextKeepsLicences(w: World, s: Step)
    requires LicencesHold(w) && GateHolds(w) && Budgeted(w)
    ensures LicencesHold(Next(w, s))
  {
    match s
    case Recheck(passes, stored) => if w.phase.Rechecking? { RecheckKeepsLicences(w, passes, stored); }
    case Perform => if w.phase.Executing? { PerformKeepsLicences(w); }
    case Check(passes, stored) => if w.phase.Checking? { CheckKeepsLicences(w, passes, stored); }
    case Poll => if w.phase.Waiting? { PollKeepsLicences(w); }
    case _ => OtherStepsKeepLicences(w, s);
  }

  lemma {:induction false} RunKeepsConsent(w: World, steps: seq<Step>)
    requires Init(w)
    ensures GateHolds(Run(w, steps)) && ConsentsHold(Run(w, steps)) && LicencesHold(Run(w, steps))
  {
    if steps != [] {
      var before, s := steps[..|steps| - 1], steps[|steps| - 1];
      RunKeepsConsent(w, before);
      RunKeepsBudgeted(w, before);
      NextKeepsGate(Run(w, before), s);
      NextKeepsConsents(Run(w, before), s);
      NextKeepsLicences(Run(w, before), s);
    }
  }

  /** Over every run, a gated action was performed only on a channel row that someone approved for exactly that
      action with those arguments, and that was consumed before it expired. */
  lemma GatedActionsHaveTheirOwnApproval(w: World, steps: seq<Step>, i: nat)
    requires Init(w) && i < |Run(w, steps).performed| && NeedsApproval(Run(w, steps).performed[i].call.action)
    ensures var v := Run(w, steps); var p := v.performed[i];
      && p.consent.Some? && p.consent.value.fingerprint == FingerprintOf(p.call)
      && Backed(v.rows, p.consent.value)
  {
    RunKeepsConsent(w, steps);
    var v := Run(w, steps);
    ConsentIsListed(v.performed, i);
    var c := v.performed[i].consent.value;
    assert c in v.consents;
  }

  lemma {:induction false} ConsentIsListed(performed: seq<Performance>, i: nat)
    requires i < |performed| && performed[i].consent.Some?
    ensures performed[i].consent.value in ConsentsOf(performed)
  {
    if i < |performed| - 1 {
      ConsentIsListed(performed[..|performed| - 1], i);
    }
  }

  lemma {:induction false} ListedApart(performed: seq<Performance>, i: nat, j: nat)
    requires i < j < |performed| && performed[i].consent.Some? && performed[j].consent.Some?
    requires IdsDiffer(ConsentsOf(performed))
    ensures performed[i].consent.value.id != performed[j].consent.value.id
  {
    var rest := performed[..|performed| - 1];
    var earlier := ConsentsOf(rest);
    assert earlier <= ConsentsOf(performed);
    if j < |performed| - 1 {
      ListedApart(rest, i, j);
    } else {
      ConsentIsListed(rest, i);
      var k :| 0 <= k < |earlier| && earlier[k] == performed[i].consent.value;
      assert ConsentsOf(performed)[k] == earlier[k] && ConsentsOf(performed)[|earlier|] == performed[j].consent.value;
    }
  }

  /** No two performances share an approval. */
  lemma ApprovalsAreSingleUse(w: World, steps: seq<Step>, i: nat, j: nat)
    requires Init(w) && i < j < |Run(w, steps).performed|
    requires Run(w, steps).performed[i].consent.Some? && Run(w, steps).performed[j].consent.Some?
    ensures Run(w, steps).performed[i].consent.value.id != Run(w, steps).performed[j].consent.value.id
  {
    RunKeepsConsent(w, steps);
    var v := Run(w, steps);
    assert ConsentsOf(v.performed) <= v.consents;
    ListedApart(v.performed, i, j);
  }

  /** Nothing is consumed without being performed, save what is in hand. */
  lemma ConsentIsNeverWasted(w: World, steps: seq<Step>)
    requires Init(w) && !Run(w, steps).phase.Executing?
    ensures Run(w, steps).consents == ConsentsOf(Run(w, steps).performed)
  {
    RunKeepsConsent(w, steps);
  }
}
