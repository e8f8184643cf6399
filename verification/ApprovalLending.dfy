/**
 When a performance is carried on a consent that was given for something else.
 */
module ApprovalLending {
  import opened Options
  import opened Ledgers
  import opened ApprovalGate
  import opened ApprovalRun
  import opened ApprovalConsent

  /** A performance that spent a consent spent its own exactly when its action needs one. */
  lemma SpentConsentIsOwnExactlyWhenGated(w: World, steps: seq<Step>, i: nat)
    requires Init(w) && i < |Run(w, steps).performed| && Run(w, steps).performed[i].consent.Some?
    ensures var p := Run(w, steps).performed[i];
      p.consent.value.fingerprint == FingerprintOf(p.call) <==> NeedsApproval(p.call.action)
  {
    RunKeepsConsent(w, steps);
    assert Licensed(Run(w, steps).performed[i]);
  }

  /** It was carried out on a consent that was given for something else. */
  predicate Borrows(p: Performance) {
    p.consent.Some? && p.consent.value.fingerprint != FingerprintOf(p.call)
  }

  /** Between its two checks a remediation finds its budget unchanged. */
  ghost predicate HasRoom(w: World) {
    w.phase.Waiting? || w.phase.Rechecking? ==> !BudgetSpent(w.ledger)
  }

  /** The second check of a call of this action refuses it. */
  predicate Refuses(w: World, s: Step, action: Action) {
    s.Recheck? && w.phase.Rechecking? && w.phase.call.action == action && Rereads(action) && !s.passes
  }

  /** Some call of this action was refused at its second check. */
  ghost predicate EverRefused(w: World, steps: seq<Step>, action: Action) {
    steps != []
    && (EverRefused(w, steps[..|steps| - 1], action)
        || Refuses(Run(w, steps[..|steps| - 1]), steps[|steps| - 1], action))
  }

  /** A rebind's second check repeats its first, so it never refuses. */
  lemma {:induction false} RebindIsNeverRefused(w: World, steps: seq<Step>)
    ensures !EverRefused(w, steps, RebindGateway)
  {
    if steps != [] {
      RebindIsNeverRefused(w, steps[..|steps| - 1]);
    }
  }

  /** An approval of this action is spent, or lost, within its own call. */
  ghost predicate IsSpent(w: World, action: Action) {
    w.pending.Some? && w.pending.value.request.fingerprint.action == action
    && !(w.phase.Rechecking? && w.phase.call.action == action) ==>
      w.pending.value.decision.id !in w.requests
  }

  lemma CheckKeepsSpent(w: World, passes: bool, stored: bool, action: Action)
    requires w.phase.Checking? && IsSpent(w, action)
    ensures HasRoom(CheckTx(w, w.phase.call, passes, stored))
    ensures IsSpent(CheckTx(w, w.phase.call, passes, stored), action)
  {
  }

  lemma PollKeepsSpent(w: World, action: Action)
    requires w.phase.Waiting? && GateHolds(w) && HasRoom(w) && IsSpent(w, action)
    ensures HasRoom(PollTx(w)) && IsSpent(PollTx(w), action)
  {
  }

  lemma RecheckKeepsSpent(w: World, passes: bool, stored: bool, action: Action)
    requires w.phase.Rechecking? && GateHolds(w) && HasRoom(w) && IsSpent(w, action)
    requires !Refuses(w, Recheck(passes, stored), action)
    ensures HasRoom(RecheckTx(w, w.phase.call, passes, stored))
    ensures IsSpent(RecheckTx(w, w.phase.call, passes, stored), action)
  {
    RecheckForgets(w, w.phase.call, passes, stored);
  }

  lemma OtherStepsKeepSpent(w: World, s: Step, action: Action)
    requires !s.Check? && !s.Poll? && !s.Recheck? && HasRoom(w) && IsSpent(w, action)
    ensures HasRoom(Next(w, s)) && IsSpent(Next(w, s), action)
  {
  }

  lemma NextKeepsSpent(w: World, s: Step, action: Action)
    requires GateHolds(w) && HasRoom(w) && IsSpent(w, action) && !Refuses(w, s, action)
    ensures HasRoom(Next(w, s)) && IsSpent(Next(w, s), action)
  {
    match s
    case Check(passes, stored) => if w.phase.Checking? { CheckKeepsSpent(w, passes, stored, action); }
    case Poll => if w.phase.Waiting? { PollKeepsSpent(w, action); }
    case Recheck(passes, stored) => if w.phase.Rechecking? { RecheckKeepsSpent(w, passes, stored, action); }
    case _ => OtherStepsKeepSpent(w, s, action);
  }

  lemma {:induction false} RunKeepsSpent(w: World, steps: seq<Step>, action: Action)
    requires Init(w) && !EverRefused(w, steps, action)
    ensures HasRoom(Run(w, steps)) && IsSpent(Run(w, steps), action)
  {
    if steps != [] {
      var before, s := steps[..|steps| - 1], steps[|steps| - 1];
      RunKeepsSpent(w, before, action);
      RunKeepsConsent(w, before);
      NextKeepsSpent(Run(w, before), s, action);
    }
  }

  // ---- a consent is only borrowed from a call that was refused -----------------------------------------

  ghost predicate NoneBorrowedFrom(w: World, action: Action) {
    && (forall i | 0 <= i < |w.performed| ::
          Borrows(w.performed[i]) ==> w.performed[i].consent.value.fingerprint.action != action)
    && (w.phase.Executing? && Borrows(w.phase.performance) ==>
          w.phase.performance.consent.value.fingerprint.action != action)
  }

  lemma RecheckHandsOn(w: World, passes: bool, stored: bool, action: Action)
    requires w.phase.Rechecking? && GateHolds(w) && IsSpent(w, action)
    ensures var v := RecheckTx(w, w.phase.call, passes, stored);
      && v.performed == w.performed
      && (v.phase.Executing? && Borrows(v.phase.performance) ==>
            v.phase.performance.consent.value.fingerprint.action != action)
  {
    if w.pending.Some? {
      assert w.pending.value.decision.id in w.requests ==>
               w.requests[w.pending.value.decision.id] == w.pending.value.request;
    }
  }

  lemma RecheckBorrowsFromNoSpent(w: World, passes: bool, stored: bool, action: Action)
    requires w.phase.Rechecking? && GateHolds(w) && IsSpent(w, action) && NoneBorrowedFrom(w, action)
    ensures NoneBorrowedFrom(RecheckTx(w, w.phase.call, passes, stored), action)
  {
    RecheckHandsOn(w, passes, stored, action);
  }

  lemma CheckBorrowsNothing(w: World, passes: bool, stored: bool, action: Action)
    requires w.phase.Checking? && NoneBorrowedFrom(w, action)
    ensures NoneBorrowedFrom(CheckTx(w, w.phase.call, passes, stored), action)
  {
    if NeedsApproval(w.phase.call.action) {
      SeekForgets(w.(pending := None), w.phase.call, stored);
    }
  }

  lemma OtherStepsBorrowNothing(w: World, s: Step, action: Action)
    requires !s.Check? && !s.Recheck? && NoneBorrowedFrom(w, action)
    ensures NoneBorrowedFrom(Next(w, s), action)
  {
  }

  lemma {:induction false} RunBorrowsFromNoSpent(w: World, steps: seq<Step>, action: Action)
    requires Init(w) && !EverRefused(w, steps, action)
    ensures NoneBorrowedFrom(Run(w, steps), action)
  {
    if steps != [] {
      var before, s := steps[..|steps| - 1], steps[|steps| - 1];
      var v := Run(w, before);
      RunBorrowsFromNoSpent(w, before, action);
      RunKeepsSpent(w, before, action);
      RunKeepsConsent(w, before);
      match s
      case Check(passes, stored) => if v.phase.Checking? { CheckBorrowsNothing(v, passes, stored, action); }
      case Recheck(passes, stored) => if v.phase.Rechecking? { RecheckBorrowsFromNoSpent(v, passes, stored, action); }
      case _ => OtherStepsBorrowNothing(v, s, action);
    }
  }

  /** Over every run, a borrowed consent was given for an action of which some call was refused at its second
      check: a run in which no gated call is refused there borrows nothing. */
  lemma BorrowingNeedsARefusal(w: World, steps: seq<Step>, i: nat)
    requires Init(w) && i < |Run(w, steps).performed| && Borrows(Run(w, steps).performed[i])
    ensures EverRefused(w, steps, Run(w, steps).performed[i].consent.value.fingerprint.action)
  {
    var action := Run(w, steps).performed[i].consent.value.fingerprint.action;
    if !EverRefused(w, steps, action) {
      RunBorrowsFromNoSpent(w, steps, action);
    }
  }

  // ---- an approval that is spent and still pending --------------------------------------------------------

  /** Within its budget and its preconditions, an action that needs no approval is denied while an approval is
      pending whose action was never refused at a second check: that approval is spent. */
  lemma PendingApprovalDeniesUngated(w: World, steps: seq<Step>, stored: bool)
    requires Init(w) && Run(w, steps).phase.Rechecking? && !NeedsApproval(Run(w, steps).phase.call.action)
    requires Run(w, steps).pending.Some?
    requires !EverRefused(w, steps, Run(w, steps).pending.value.request.fingerprint.action)
    ensures var v := Run(w, steps); var u := Next(v, Recheck(true, stored));
      && !BudgetSpent(v.ledger) && u.phase == Idle && u.consents == v.consents && u.rows == v.rows
      && u.ledger == v.ledger.(denied := v.ledger.denied + [v.phase.call.action])
  {
    var v := Run(w, steps);
    RunKeepsConsent(w, steps);
    RunKeepsSpent(w, steps, v.pending.value.request.fingerprint.action);
    assert NeedsApproval(v.pending.value.request.fingerprint.action);
  }

  /** What the policy and the calls made so far allow a performance to be. A consent is only borrowed by a
      refresh, as the second call at least, from a rerun or a re-enable. */
  predicate Permitted(p: Performance, policy: Policy, tools: nat) {
    && p.call.action in policy.allowed
    && (Borrows(p) ==>
          && p.call.action == RefreshDataset && tools >= 2
          && (p.consent.value.fingerprint.action == RerunPipeline
              || p.consent.value.fingerprint.action == ReenableSchedule)
          && p.consent.value.fingerprint.action in policy.allowed)
  }

  ghost predicate PendingIsPermitted(w: World) {
    w.pending.Some? ==> w.pending.value.request.fingerprint.action in w.ledger.policy.allowed && w.ledger.tools >= 1
  }

  ghost predicate CallIsPermitted(w: World) {
    w.phase.Checking? || w.phase.Waiting? || w.phase.Rechecking? ==>
      && w.phase.call.action in w.ledger.policy.allowed && w.ledger.tools >= 1
      && (w.phase.Rechecking? ==> IsRemediation(w.phase.call.action))
      && (w.pending.Some? && !NeedsApproval(w.phase.call.action) ==> w.ledger.tools >= 2)
  }

  ghost predicate AllPermitted(w: World) {
    && (forall i | 0 <= i < |w.performed| :: Permitted(w.performed[i], w.ledger.policy, w.ledger.tools))
    && (w.phase.Executing? ==> Permitted(w.phase.performance, w.ledger.policy, w.ledger.tools))
  }

  ghost predicate PermissionsHold(w: World) {
    PendingIsPermitted(w) && CallIsPermitted(w) && AllPermitted(w)
  }

  lemma CheckKeepsPermissions(w: World, passes: bool, stored: bool)
    requires w.phase.Checking? && PermissionsHold(w)
    ensures PermissionsHold(CheckTx(w, w.phase.call, passes, stored))
  {
    if NeedsApproval(w.phase.call.action) {
      SeekForgets(w.(pending := None), w.phase.call, stored);
    }
  }

  lemma PollKeepsPermissions(w: World)
    requires w.phase.Waiting? && GateHolds(w) && PermissionsHold(w)
    ensures PermissionsHold(PollTx(w))
  {
    GatedIsRemediation(w.phase.call.action);
  }

  /** What a second check hands on for execution. */
  lemma RecheckPermits(w: World, passes: bool, stored: bool)
    requires w.phase.Rechecking? && GateHolds(w) && IsSpent(w, RebindGateway)
    requires PendingIsPermitted(w) && CallIsPermitted(w)
    ensures var v := RecheckTx(w, w.phase.call, passes, stored);
      && v.ledger.policy == w.ledger.policy && v.ledger.tools == w.ledger.tools && v.performed == w.performed
      && (v.phase == Idle || (v.phase.Executing? && Permitted(v.phase.performance, w.ledger.policy, w.ledger.tools)))
  {
    if w.pending.Some? {
      assert w.pending.value.decision.id in w.requests ==>
               w.requests[w.pending.value.decision.id] == w.pending.value.request;
    }
  }

  lemma RecheckKeepsPermissions(w: World, passes: bool, stored: bool)
    requires w.phase.Rechecking? && GateHolds(w) && IsSpent(w, RebindGateway) && PermissionsHold(w)
    ensures PermissionsHold(RecheckTx(w, w.phase.call, passes, stored))
  {
    RecheckForgets(w, w.phase.call, passes, stored);
    RecheckPermits(w, passes, stored);
  }

  lemma OtherStepsKeepPermissions(w: World, s: Step)
    requires !s.Check? && !s.Poll? && !s.Recheck? && PermissionsHold(w)
    ensures PermissionsHold(Next(w, s))
  {
  }

  lemma NextKeepsPermissions(w: World, s: Step)
    requires GateHolds(w) && IsSpent(w, RebindGateway) && PermissionsHold(w)
    ensures PermissionsHold(Next(w, s))
  {
    match s
    case Check(passes, stored) => if w.phase.Checking? { CheckKeepsPermissions(w, passes, stored); }
    case Poll => if w.phase.Waiting? { PollKeepsPermissions(w); }
    case Recheck(passes, stored) => if w.phase.Rechecking? { RecheckKeepsPermissions(w, passes, stored); }
    case _ => OtherStepsKeepPermissions(w, s);
  }

  lemma {:induction false} RunKeepsPermissions(w: World, steps: seq<Step>)
    requires Init(w)
    ensures PermissionsHold(Run(w, steps))
  {
    if steps != [] {
      var before, s := steps[..|steps| - 1], steps[|steps| - 1];
      RunKeepsPermissions(w, before);
      RunKeepsConsent(w, before);
      RebindIsNeverRefused(w, before);
      RunKeepsSpent(w, before, RebindGateway);
      NextKeepsPermissions(Run(w, before), s);
    }
  }

  /** Over every run, a consent is carried by the very call it was given for, or by a refresh that took it
      from a rerun or a re-enable: a rebind's is never borrowed, and nothing but a refresh borrows. */
  lemma OnlyARefreshBorrowsAndNeverFromARebind(w: World, steps: seq<Step>, i: nat)
    requires Init(w) && i < |Run(w, steps).performed| && Run(w, steps).performed[i].consent.Some?
    ensures var p := Run(w, steps).performed[i];
      || p.consent.value.fingerprint == FingerprintOf(p.call)
      || (&& p.call.action == RefreshDataset
          && (p.consent.value.fingerprint.action == RerunPipeline
              || p.consent.value.fingerprint.action == ReenableSchedule))
  {
    RunKeepsPermissions(w, steps);
    var v := Run(w, steps);
    assert Permitted(v.performed[i], v.ledger.policy, v.ledger.tools);
  }

  // ---- which policies let a consent be borrowed -------------------------------------------------------

  predicate BorrowsSomewhere(w: World) {
    exists i | 0 <= i < |w.performed| :: Borrows(w.performed[i])
  }

  /** Some run under this policy carries out something on a consent given for something else. */
  ghost predicate SomeRunBorrows(policy: Policy) {
    exists w, steps :: Init(w) && w.ledger.policy == policy && BorrowsSomewhere(Run(w, steps))
  }

  predicate Lends(policy: Policy) {
    && RefreshDataset in policy.allowed && (RerunPipeline in policy.allowed || ReenableSchedule in policy.allowed)
    && policy.maxWrites >= 1 && policy.maxTools >= 2
  }

  lemma {:induction false} RemediationIsCounted(performed: seq<Performance>, i: nat)
    requires i < |performed| && IsRemediation(performed[i].call.action)
    ensures Remediations(performed) >= 1
  {
    if i < |performed| - 1 {
      RemediationIsCounted(performed[..|performed| - 1], i);
    }
  }

  lemma BorrowingNeedsALender(w: World, steps: seq<Step>)
    requires Init(w) && BorrowsSomewhere(Run(w, steps))
    ensures Lends(w.ledger.policy)
  {
    RunKeepsPermissions(w, steps);
    RunKeepsBudgeted(w, steps);
    var v := Run(w, steps);
    var i :| 0 <= i < |v.performed| && Borrows(v.performed[i]);
    assert Permitted(v.performed[i], v.ledger.policy, v.ledger.tools);
    RemediationIsCounted(v.performed, i);
  }

  /** A policy lets some run borrow a consent exactly when it allows the refresh together with a rerun or a
      re-enable, and a write and two calls. */
  lemma SomeRunBorrowsExactlyWhen(policy: Policy)
    ensures SomeRunBorrows(policy) <==> Lends(policy)
  {
    if Lends(policy) {
      var w := World("", true, 2 * TICKS_PER_SECOND, Ledger(policy, 0, 0, 0, 0, 0, 0, 0, [], []),
                     map[], None, 0, Idle, map[], 0, 0, [], [], []);
      var gated := if RerunPipeline in policy.allowed then RerunPipeline else ReenableSchedule;
      var steps := RefreshSpendsAnApprovalOf(w, gated);
      assert BorrowsSomewhere(Run(w, steps));
    }
    if SomeRunBorrows(policy) {
      var w, steps :| Init(w) && w.ledger.policy == policy && BorrowsSomewhere(Run(w, steps));
      BorrowingNeedsALender(w, steps);
    }
  }

  const PIPELINE_TOOLS: set<string> :=
    {"get_request_context", "get_known_incidents", "get_pipeline_run_evidence", "get_pipeline_rerun_status",
     "notify_teams", "report_resolution"}
  const PIPELINE_ONLY: set<string> := {"get_pipeline_run_evidence", "get_pipeline_rerun_status"}

  /** The policy that the agent derives for a run: a pipeline run gets the pipeline actions and at most one
      write, any other run everything but the actions that only pipelines have. */
  function AgentPolicy(policy: Policy, pipeline: bool): Policy {
    if pipeline then
      policy.(allowed := (set a | a in policy.allowed
                                  && (a == RerunPipeline || (a.Other? && a.name in PIPELINE_TOOLS))),
              maxWrites := if policy.maxWrites < 1 then policy.maxWrites else 1)
    else
      policy.(allowed := (set a | a in policy.allowed && a != RerunPipeline && !(a.Other? && a.name in PIPELINE_ONLY)))
  }

  /** Under the agent's policies no run about a pipeline ever borrows, and one about a dataset can only
      borrow from a re-enable, and can exactly when the configuration allows both actions. */
  lemma AgentRunsBorrowOnlyFromAReenable(policy: Policy)
    ensures !SomeRunBorrows(AgentPolicy(policy, true))
    ensures SomeRunBorrows(AgentPolicy(policy, false)) <==>
            && RefreshDataset in policy.allowed && ReenableSchedule in policy.allowed
            && policy.maxWrites >= 1 && policy.maxTools >= 2
  {
    SomeRunBorrowsExactlyWhen(AgentPolicy(policy, true));
    SomeRunBorrowsExactlyWhen(AgentPolicy(policy, false));
  }

  /** In particular, what is borrowed in a run of the agent was given for a re-enable, and borrowed by a refresh. */
  lemma AgentBorrowsFromAReenable(w: World, steps: seq<Step>, policy: Policy, pipeline: bool, i: nat)
    requires Init(w) && w.ledger.policy == AgentPolicy(policy, pipeline)
    requires i < |Run(w, steps).performed| && Borrows(Run(w, steps).performed[i])
    ensures var p := Run(w, steps).performed[i];
      && !pipeline && p.call.action == RefreshDataset
      && p.consent.value.fingerprint.action == ReenableSchedule
  {
    RunKeepsPermissions(w, steps);
    RunKeepsBudgeted(w, steps);
    var v := Run(w, steps);
    assert Permitted(v.performed[i], v.ledger.policy, v.ledger.tools);
  }

  /** And only if a re-enable was refused at its second check: where that check repeats the first, no run of the
      agent borrows anything. */
  lemma AgentBorrowsOnlyAfterARefusedReenable(w: World, steps: seq<Step>, policy: Policy, pipeline: bool)
    requires Init(w) && w.ledger.policy == AgentPolicy(policy, pipeline) && BorrowsSomewhere(Run(w, steps))
    ensures !pipeline && EverRefused(w, steps, ReenableSchedule)
  {
    var i :| 0 <= i < |Run(w, steps).performed| && Borrows(Run(w, steps).performed[i]);
    AgentBorrowsFromAReenable(w, steps, policy, pipeline, i);
    BorrowingNeedsARefusal(w, steps, i);
  }

  // ---- a run that borrows ---------------------------------------------------------------------------

  /** A gated call is approved, but its second check finds that things changed: another invocation reserved the
      rerun, or the last refresh is no longer a success. The refresh proposed next needs no approval, and is
      carried out on the one that was given. */
  lemma RefreshSpendsAnApprovalOf(w: World, gated: Action) returns (steps: seq<Step>)
    requires Init(w) && w.hasGate && w.rows == map[] && w.utc == 0 && w.approvalTimeout == 2 * TICKS_PER_SECOND
    requires gated == RerunPipeline || gated == ReenableSchedule
    requires gated in w.ledger.policy.allowed && RefreshDataset in w.ledger.policy.allowed
    requires w.ledger.policy.maxWrites >= 1 && w.ledger.policy.maxTools >= 2
    ensures var v := Run(w, steps);
      && |v.performed| == 1 && v.performed[0].call.action == RefreshDataset
      && v.performed[0].consent.Some? && v.performed[0].consent.value.fingerprint == Fingerprint(gated, "")
  {
    var call, id := Call(gated, ""), RequestId(w.runRequest, gated);
    var asked := Approve(w, call, id);
    var before := Run(w, asked);
    steps := RefreshIsRechecked(w, asked, call, id);
    var v := Run(w, steps);
    RefreshBorrows(before, v, call, id);
    var last := Next(v, Recheck(true, true));
    RunOneMore(w, steps, Recheck(true, true));
    RunOneMore(w, steps + [Recheck(true, true)], Perform);
    steps := steps + [Recheck(true, true)] + [Perform];
    assert Run(w, steps).performed == [last.phase.performance];
  }

  /** The gated call is refused at its second check, and the refresh gets as far as its own. */
  lemma RefreshIsRechecked(w: World, asked: seq<Step>, call: Call, id: RequestId) returns (steps: seq<Step>)
    requires IsApproved(Run(w, asked), call, id) && Rereads(call.action)
    requires var l := Run(w, asked).ledger;
      && l.writes == 0 < l.policy.maxWrites && l.tools == 1 < l.policy.maxTools && RefreshDataset in l.policy.allowed
      && Elapsed(l, Run(w, asked).mono) <= l.policy.timeout
    ensures var v := Run(w, steps);
      && v == Run(w, asked).(ledger := v.ledger, phase := Rechecking(Call(RefreshDataset, "")))
      && !BudgetSpent(v.ledger)
  {
    var refresh := Begin(Call(RefreshDataset, ""));
    RunOneMore(w, asked, Recheck(false, true));
    RunOneMore(w, asked + [Recheck(false, true)], refresh);
    RunOneMore(w, asked + [Recheck(false, true)] + [refresh], Check(true, true));
    steps := asked + [Recheck(false, true)] + [refresh] + [Check(true, true)];
  }

  lemma RefreshBorrows(before: World, w: World, call: Call, id: RequestId)
    requires IsApproved(before, call, id) && Rereads(call.action) && !BudgetSpent(w.ledger)
    requires w == before.(ledger := w.ledger, phase := Rechecking(Call(RefreshDataset, "")))
    ensures var v := Next(w, Recheck(true, true));
      && v.phase == Executing(Performance(Call(RefreshDataset, ""), Some(Consent(id, FingerprintOf(call), 0))))
      && v.performed == before.performed
  {
  }

  // ---- a run that is denied -------------------------------------------------------------------------

  /** A gated call is approved and performed; the refresh proposed next finds the spent approval still pending
      and is denied, with budget left. */
  lemma RefreshIsDeniedAfterAGatedAction(w: World, gated: Action) returns (steps: seq<Step>)
    requires Init(w) && w.hasGate && w.rows == map[] && w.utc == 0 && w.approvalTimeout == 2 * TICKS_PER_SECOND
    requires NeedsApproval(gated) && gated in w.ledger.policy.allowed && RefreshDataset in w.ledger.policy.allowed
    requires w.ledger.policy.maxWrites >= 2 && w.ledger.policy.maxTools >= 2
    ensures var v := Run(w, steps);
      && |v.performed| == 1 && v.performed[0].call.action == gated
      && v.ledger.denied == [RefreshDataset] && !BudgetSpent(v.ledger)
  {
    var call, id := Call(gated, ""), RequestId(w.runRequest, gated);
    var asked := Approve(w, call, id);
    var refresh := Begin(Call(RefreshDataset, ""));
    var done := asked + [Recheck(true, true)] + [Perform];
    RunOneMore(w, asked, Recheck(true, true));
    RunOneMore(w, asked + [Recheck(true, true)], Perform);
    GatedIsPerformed(Run(w, asked), call, id);
    RunOneMore(w, done, refresh);
    RunOneMore(w, done + [refresh], Check(true, true));
    RunOneMore(w, done + [refresh] + [Check(true, true)], Recheck(true, true));
    steps := done + [refresh] + [Check(true, true)] + [Recheck(true, true)];
    RefreshIsDenied(Run(w, done));
  }

  lemma GatedIsPerformed(v: World, call: Call, id: RequestId)
    requires IsApproved(v, call, id) && v.performed == [] && v.ledger.writes < v.ledger.policy.maxWrites
    ensures var u := Next(Next(v, Recheck(true, true)), Perform);
      && u.phase == Idle && u.performed == [Performance(call, Some(Consent(id, FingerprintOf(call), 0)))]
      && u.pending == v.pending && u.pending.value.decision.id !in u.requests && u.mono == v.mono
      && u.ledger == v.ledger.(writes := v.ledger.writes + 1)
  {
  }

  lemma RefreshIsDenied(v: World)
    requires v.phase == Idle && v.pending.Some? && v.pending.value.decision.id !in v.requests
    requires RefreshDataset in v.ledger.policy.allowed && v.ledger.tools < v.ledger.policy.maxTools
    requires Elapsed(v.ledger, v.mono) <= v.ledger.policy.timeout && !BudgetSpent(v.ledger)
    ensures var u := Next(Next(Next(v, Begin(Call(RefreshDataset, ""))), Check(true, true)), Recheck(true, true));
      && u.phase == Idle && u.performed == v.performed && u.ledger.writes == v.ledger.writes
      && u.ledger.policy == v.ledger.policy && u.ledger.denied == v.ledger.denied + [RefreshDataset]
  {
  }

  // ---- how an approval comes about ------------------------------------------------------------------

  /** A gated call waits for its answer. */
  lemma Ask(w: World, call: Call, id: RequestId) returns (steps: seq<Step>)
    requires Init(w) && w.hasGate && w.rows == map[] && w.utc == 0 && w.approvalTimeout == 2 * TICKS_PER_SECOND
    requires w.ledger.policy.maxWrites >= 1 && w.ledger.policy.maxTools >= 2 && call.action in w.ledger.policy.allowed
    requires NeedsApproval(call.action) && id == RequestId(w.runRequest, call.action)
    ensures var v := Run(w, steps);
      && v.phase == Waiting(call, Request(id, FingerprintOf(call), 2 * TICKS_PER_SECOND), v.mono)
      && v.requests == map[] && v.performed == [] && v.utc == 0 && v.mono == w.mono
      && v.ledger == w.ledger.(attempted := 1, tools := 1)
      && v.rows == map[id := Row(FingerprintOf(call), 2 * TICKS_PER_SECOND, "", "", None)]
  {
    var w1 := Next(w, Begin(call));
    RunOneMore(w, [], Begin(call));
    RunOneMore(w, [Begin(call)], Check(true, true));
    steps := [Begin(call)] + [Check(true, true)];
    assert [] + [Begin(call)] == [Begin(call)];
    assert w1.phase == Checking(call);
  }

  /** The steps by which a gated call is approved. */
  lemma Approve(w: World, call: Call, id: RequestId) returns (steps: seq<Step>)
    requires Init(w) && w.hasGate && w.rows == map[] && w.utc == 0 && w.approvalTimeout == 2 * TICKS_PER_SECOND
    requires w.ledger.policy.maxWrites >= 1 && w.ledger.policy.maxTools >= 2 && call.action in w.ledger.policy.allowed
    requires NeedsApproval(call.action) && id == RequestId(w.runRequest, call.action)
    ensures IsApproved(Run(w, steps), call, id)
    ensures var v := Run(w, steps);
      v.performed == [] && v.ledger == w.ledger.(attempted := 1, tools := 1) && v.mono == w.mono
  {
    var ask := Ask(w, call, id);
    var decide := Others(DecideExactly(id, "approve", FingerprintOf(call), "operator", true));
    var v := Next(Run(w, ask), decide);
    RunOneMore(w, ask, decide);
    RunOneMore(w, ask + [decide], Poll);
    steps := ask + [decide] + [Poll];
    assert id in v.rows && v.rows[id] == Row(FingerprintOf(call), 2 * TICKS_PER_SECOND, "approve", "operator", None);
    PollApproves(v, call, id);
    assert Run(w, steps) == PollTx(v);
  }

  ghost predicate IsApproved(v: World, call: Call, id: RequestId) {
    && v.phase == Rechecking(call) && v.pending.Some? && v.utc == 0
    && v.pending.value.decision.id in v.requests
    && v.requests[v.pending.value.decision.id] == Request(id, FingerprintOf(call), 2 * TICKS_PER_SECOND)
    && IsValidFor(v.pending.value.decision, v.requests[v.pending.value.decision.id], 0)
    && id in v.rows && v.rows[id] == Row(FingerprintOf(call), 2 * TICKS_PER_SECOND, "approve", "operator", None)
  }

  lemma PollApproves(w: World, call: Call, id: RequestId)
    requires w.phase == Waiting(call, Request(id, FingerprintOf(call), 2 * TICKS_PER_SECOND), w.mono) && w.utc == 0
    requires id in w.rows && w.rows[id] == Row(FingerprintOf(call), 2 * TICKS_PER_SECOND, "approve", "operator", None)
    ensures var v := PollTx(w);
      IsApproved(v, call, id) && v.performed == w.performed && v.ledger == w.ledger && v.mono == w.mono
  {
    ApproveIsLower();
  }
}
