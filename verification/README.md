# Verification of the triage accelerator's state protocols

This project models the parts of the BI triage accelerator whose failure would be hard to undo, and
proves what they promise over every run. `dafny verify dfyconfig.toml` checks all of it.

## What is modelled

| files | subject |
|---|---|
| `BootstrapStore`, `BootstrapProtocol`, `BootstrapTheorems`, `BootstrapProgress` | the SQL bootstrap: two transactions per apply, one adjudication of a stuck original, any number of processes that pause, crash or lose an acknowledgement |
| `ResetStore`, `ResetProtocol`, `ResetTheorems` | the destructive reset as a guarded compare-and-swap, with concurrent operators and an environment that keeps writing |
| `DeletionOrder`, `DdlScanner`, `DdlMeaning` | the reset's foreign-key order and its two quote and parenthesis scanners, down to what their states count |
| `PipelineClaims`, `PipelineTheorems` | concurrent sweeps: claim, re-check, triage, mark, release, over either claim store |
| `PoolDrain`, `DrainTrace` | one drain of two work pools under an admission deadline |
| `ValidationBatch` | the cooperative worker pool of the command center |
| `JsonContainment`, `JsonPaths` | the containment relation on JSON trees, as a whole and path by path |
| `ApplicationPatch`, `PatchContents` | the reconciling merge of an application registration, its laws and its contents |
| `Pagination` | one abstract page walk and the three paginators over it |
| `Ledgers`, `ApprovalGate`, `ApprovalRun`, `ApprovalSteps`, `ApprovalConsent`, `ApprovalLending` | budgets, the approval channel and the web gate, joined by the dispatch of tool calls |

Each part has the same shape. Code that updates state is a class or a method, proved equal to a
specification function; the specification is the step of a state machine; theorems are about every
finite sequence of steps. Hashes are represented by the content they digest, so they are injective.
A database transaction is one atomic step that may commit with its acknowledgement lost.

## Where the code does not do what one would expect

Each of these is kept as the code has it and delimited exactly, most of them beside a concrete run.

- A sweep that outlives its claim's lease can triage a run that another sweep has marked. The theorems
  about marks hold of every run in which nobody wins the claim of a pipeline another sweep still works on. A
  lease rules that out if and only if all sweeps claim in one store and the lease covers the reads and the
  triage together, with time to spare where the store gives a claim away at the instant it expires
  (`PipelineTheorems.LeaseSufficesExactly`). The lease of the source leaves 60 seconds for the reads before
  the triage and the recording after its cut-off (`PipelineTheorems.SixtySecondsOfSlack`).
- The branch that claims is only reached by fixture runners without monitoring (`src/triage/runner.py:1061-1089`).
  Their state has no database (`src/triage/store/durability.py:53-62`), so their claims are always kept in
  the process, one store per runner (`src/triage/runner.py:992-997`): the slack is then less than 60 seconds,
  and two runners over one processed log can triage a marked run whatever the lease. The durable store is
  modelled as well, since the branch is written against both.
- `stopped` is reported although nothing was skipped if and only if some turn saw the stop signal set while
  work was left and a later turn started the last scenario
  (`ValidationBatch.StoppedSkipsNothingExactlyWhenTheSignalBlinks`).
- Containment is not reflexive on a tree with a NaN, which `json.loads` accepts
  (`JsonContainment.ReflexiveExactlyWithoutNaN`).
- Overlapping human waits are subtracted twice from the clock
  (`Ledgers.FreshLedgerShowsWorkingTimeExactlyWithoutOverlap`). Tool calls are dispatched one after another,
  so a run never has two (`ApprovalRun.ClockShowsWorkingTime`).
- The README of the repository calls an approval bound to the exact call. A refresh, which needs none, spends
  the approval that an earlier rerun or re-enable left pending when its second check refused it
  (`ApprovalLending.RefreshSpendsAnApprovalOf`). That takes a policy that allows both
  (`ApprovalLending.SomeRunBorrowsExactlyWhen`); the policies that `TriageAgent.run` derives leave only the
  re-enable (`ApprovalLending.AgentRunsBorrowOnlyFromAReenable`), and it needs a refresh history that changes
  while the approval is awaited, which the clients that the runner builds for one run alone do not show.
  Where no re-enable is refused at its second check, no run of the agent borrows
  (`ApprovalLending.AgentBorrowsOnlyAfterARefusedReenable`).
- The other side of the same pending approval: once it is spent, a refresh is denied as long as it stays
  pending, with budget left (`ApprovalLending.PendingApprovalDeniesUngated`,
  `ApprovalLending.RefreshIsDeniedAfterAGatedAction`).
- A decision is valid up to and including its deadline for the gate, and refused by the channel from the
  whole second of the deadline on (`ApprovalGate.ValidDecisionIsRefusedExactlyInTheLastSecond`).
- A stored registration is patched again on every rerun if the directory returns role keys that the merge
  drops (`ApplicationPatch.RerunWritesAgainExactlyWithExtraRoleKeys`).

## Model

| member | source | states |
|---|---|---|
| `BootstrapStore.Database.RecordStart` | scripts/bootstrap_azure_sql.py:904-919 | The first apply transaction, statement by statement: a start is recorded if and only if target and lock are right, the operation has no receipt and every started one is settled; a committed receipt of this bundle is read back; otherwise nothing changes |
| `BootstrapStore.Database.InstallAndComplete` | scripts/bootstrap_azure_sql.py:921-942 | The second apply transaction with its loop over the batches: it completes if and only if target and lock are right, the receipt is this bundle's and started, not adjudicated, no batch fails and the metadata matches; then every batch is in the log in order; otherwise nothing changes |
| `BootstrapStore.Database.Recover` | scripts/bootstrap_azure_sql.py:788-822 | The adjudication transaction succeeds if and only if the request describes the recorded original and names this replacement, and either this very adjudication is recorded or the evidence is in force; receipts and log never change |
| `BootstrapStore.StartsExactlyWhen` | scripts/bootstrap_azure_sql.py:904-919 | When the first transaction records, reads back or refuses, and what it leaves, in terms of the tables alone |
| `BootstrapStore.CompletesExactlyWhen` | scripts/bootstrap_azure_sql.py:921-942 | The same for the second transaction: batches, receipt and every refusal |
| `BootstrapStore.AdjudicatesExactlyWhen` | scripts/bootstrap_azure_sql.py:788-822 | The same for the adjudication, with what the recovery row then holds |
| `BootstrapStore.RefusalsAreTrue` | scripts/bootstrap_azure_sql.py:888-942 | Every refusal of an apply names something that is the matter |
| `BootstrapStore.ReadsBackExactlyWhen` | scripts/bootstrap_azure_sql.py:865-870 | A read-back succeeds if and only if the receipt of this bundle is committed and target and metadata are right |
| `BootstrapStore.LookupReportsExactly` | scripts/bootstrap_azure_sql.py:834-862 | The lookup reports a match if and only if this adjudication is recorded, and a missing one if and only if the original has none |
| `BootstrapTheorems.ApplyDecides` | scripts/bootstrap_azure_sql.py:904-919 | In every reachable state a new process records its start exactly when it may, and otherwise writes nothing |
| `BootstrapTheorems.InstallDecides` | scripts/bootstrap_azure_sql.py:921-942 | In every reachable state a process between its transactions installs if and only if target, lock and metadata are right, no batch fails and its operation was not adjudicated; otherwise it is refused and writes nothing |
| `BootstrapTheorems.RecoverDecides` | scripts/bootstrap_azure_sql.py:788-822 | In every reachable state a new process adjudicates exactly on the recorded adjudication or on evidence in force |
| `BootstrapTheorems.ReadBackDecides` | scripts/bootstrap_azure_sql.py:823-826 | In every reachable state a process that reads its commit back reports it exactly when target and metadata are right |
| `BootstrapProtocol.StartKeepsFence` | scripts/bootstrap_azure_sql.py:904-919 | Recording a start keeps: at most one unadjudicated started receipt, at most one recovery row, the adjudicated original untouched |
| `BootstrapProtocol.CompleteKeepsFence` | scripts/bootstrap_azure_sql.py:921-942 | Completing an operation keeps the same fence |
| `BootstrapProtocol.RecoverKeepsFence` | scripts/bootstrap_azure_sql.py:788-822 | Adjudicating keeps the same fence |
| `BootstrapProtocol.NextKeepsInv` | scripts/bootstrap_azure_sql.py:888-944 | Every step of every process, with lost acknowledgements, pauses and crashes, keeps the whole invariant: fence, log and what each paused process may assume |
| `BootstrapProtocol.ReachableInv` | scripts/bootstrap_azure_sql.py:888-944 | The invariant holds after every finite schedule of any number of processes |
| `BootstrapTheorems.OriginalAndReplacementNeverBothCommitted` | scripts/bootstrap_azure_sql.py:788-822 | After any schedule, an adjudicated original and its replacement are never both committed |
| `BootstrapTheorems.RaceIsDecidedOnce` | scripts/bootstrap_azure_sql.py:926-930 | Adjudicated first stays uncommitted for good; committed first is never adjudicated |
| `BootstrapTheorems.PausedOriginalCannotResume` | scripts/bootstrap_azure_sql.py:920-930 | A process that paused between its two transactions is refused and writes nothing once its operation is adjudicated, whatever happened meanwhile |
| `BootstrapTheorems.PendingCounts` | scripts/bootstrap_azure_sql.py:727-744 | In every reachable state at most one started receipt lacks an adjudication, at most one recovery row exists, at most two receipts are started, and if two then one is adjudicated |
| `BootstrapTheorems.AdjudicatedIsFirstEver` | scripts/bootstrap_azure_sql.py:806-821 | The adjudicated receipt is the first ever recorded |
| `BootstrapTheorems.FenceIsExact` | scripts/bootstrap_azure_sql.py:727-744 | A fresh operation can record its start if and only if it is licensed: nothing pending before a recovery; only the exact replacement until it commits; afterwards anyone until the next pending one |
| `BootstrapTheorems.LicensedReplacementCanFinish` | scripts/bootstrap_azure_sql.py:904-942 | From every reachable state the licensed replacement can be completed by two accepted transactions, adding exactly its batches |
| `BootstrapTheorems.ReceiptsOnlyAdvance` | scripts/bootstrap_azure_sql.py:771-785 | Over any stretch of any schedule receipts keep their identity and move only from started to committed, an adjudication is permanent, the log only grows |
| `BootstrapTheorems.LogIsExactlyTheCommittedReceipts` | scripts/bootstrap_azure_sql.py:931-942 | The install log holds each committed operation whole and once, and nothing else |
| `BootstrapTheorems.ReconcileIsEvidence` | scripts/bootstrap_azure_sql.py:865-870 | A successful read-back proves that exactly those batches took effect once, now and at every later time |
| `BootstrapTheorems.RecoverIsRepeatable` | scripts/bootstrap_azure_sql.py:796-826 | A recovery that committed, acknowledged or not, can be repeated at any later time, past its evidence expiry, and writes nothing |
| `BootstrapTheorems.MatchingMeansRepeatable` | scripts/bootstrap_azure_sql.py:834-862 | The read-only lookup reports a match exactly when repeating the request is a success that writes nothing |
| `BootstrapTheorems.AcknowledgedCommitIsObserved` | scripts/bootstrap_azure_sql.py:823-826 | After an acknowledged commit the read-back can fail only because of the target or its metadata |
| `BootstrapProgress.StuckExactly` | scripts/bootstrap_azure_sql.py:727-744 | No schedule ever changes the tables again if and only if a started, unadjudicated operation has no live installer and an adjudication or a second receipt exists |
| `BootstrapProgress.SomethingCanStart` | scripts/bootstrap_azure_sql.py:904-919 | In every reachable state without a pending operation, some operation can record its start |
| `BootstrapProgress.LoneReceiptIsRecoverable` | scripts/bootstrap_azure_sql.py:796-822 | A started receipt that is the only one, without an adjudication, can be adjudicated |
| `DeletionOrder.Order` | scripts/reset_monitoring_state.py:230-241 | The loop over the pending tables yields exactly the tables to clear, each once and children first, or fails and their foreign keys form a cycle |
| `DeletionOrder.LayeredIsADeletionOrder` | scripts/reset_monitoring_state.py:230-241 | The order is a permutation of the clearable tables with every child before its parent |
| `DeletionOrder.NoDanglingReference` | scripts/reset_monitoring_state.py:230-241 | No prefix of the deletes empties a parent while a child row could remain |
| `DeletionOrder.FailsExactlyOnACycle` | scripts/reset_monitoring_state.py:238-239 | The order fails if and only if the foreign keys among the clearable tables contain a cycle, self-references included |
| `DeletionOrder.OrderIsByLayer` | scripts/reset_monitoring_state.py:230-241 | The order is the one by layer and name: a table without pending children goes in the first layer, any other one layer above its highest child |
| `DdlScanner.Parts` | scripts/reset_monitoring_state.py:244-262 | The index scanner with its doubled-quote look-ahead equals splitting by a plain toggle scanner |
| `DdlScanner.TableBody` | scripts/reset_monitoring_state.py:265-283 | It returns the text up to the first closing parenthesis at depth zero outside quotes, and fails exactly when there is none |
| `DdlScanner.NeverDips` | scripts/reset_monitoring_state.py:265-283 | Up to the closing parenthesis the depth never drops below zero |
| `DdlScanner.EveryBodyIsAccepted` | scripts/reset_monitoring_state.py:244-283 | Every body that the table scanner returns is accepted by the part scanner, and its depth never dips |
| `DdlScanner.CutIsExact` | scripts/reset_monitoring_state.py:256-258 | Every split point is a comma at depth zero outside quotes, none is missed, and rejoining gives the text back |
| `DdlScanner.SplitInvertsJoin` | scripts/reset_monitoring_state.py:244-262 | Joining any nonempty list of trimmed, balanced, quote-closed parts without top-level commas and splitting again gives the list back |
| `DdlScanner.SplitIsCanonical` | scripts/reset_monitoring_state.py:260-262 | Every successful split yields such parts, so printing and splitting again is the identity |
| `DdlMeaning.ScanCounts` | scripts/reset_monitoring_state.py:248-258 | The scanner's depth is the number of opening minus closing parentheses outside quotes, and it is inside a quote exactly after an odd number of them |
| `DdlMeaning.SplitFailsExactly` | scripts/reset_monitoring_state.py:259-262 | Splitting succeeds if and only if parentheses outside quotes cancel and quotes are even in number |
| `DdlMeaning.ClosesExactly` | scripts/reset_monitoring_state.py:265-283 | The body ends exactly at the closing parenthesis before which the text is balanced |
| `DdlMeaning.SplitsExactly` | scripts/reset_monitoring_state.py:256-258 | A comma splits exactly when the text before it is balanced |
| `DdlMeaning.SplitTrimsThePieces` | scripts/reset_monitoring_state.py:260-262 | The parts are the pieces between those commas, in order, trimmed |
| `DdlMeaning.StripTakesSpaces` | scripts/reset_monitoring_state.py:260-262 | Trimming takes away spaces at both ends, all of them, and nothing else |
| `ResetStore.ResetDatabase.Reset` | scripts/reset_monitoring_state.py:1730-1826 | The destructive transaction, delete by delete, commits exactly when it may and then leaves the cleared tables empty, all else in place and the kept receipts followed by its own; any refusal restores the whole database |
| `ResetStore.ResetDatabase.DeleteRows` | scripts/reset_monitoring_state.py:1754-1761 | The deletes empty exactly the ordered tables and report the counts they held |
| `ResetStore.ResetDatabase.DeleteReceipts` | scripts/reset_monitoring_state.py:1762-1769 | Exactly the reset, bootstrap and capture rows remain, each from its own earlier place and in that order, and the count reported is that of the operational rows |
| `ResetStore.KeptRetains` | scripts/reset_monitoring_state.py:1762-1769 | A strictly rising list of places picks exactly the reset, bootstrap and capture rows, and those left out are as many as the operational rows |
| `ResetStore.ResetsExactlyWhen` | scripts/reset_monitoring_state.py:1730-1826 | A reset commits if and only if no receipt has its operation, the database is compatible, in maintenance and equal to the approved state, server and both preflights are right, nothing mentions the epoch and the keys have no cycle; what it then leaves, receipts and counts included; otherwise nothing changes |
| `ResetStore.ReadGoesOnExactlyWhen` | scripts/reset_monitoring_state.py:1706-1729 | The first transaction goes on if and only if the server is the same, the epoch is new and no receipt has this operation |
| `ResetProtocol.UnusedEpochIsNew` | scripts/reset_monitoring_state.py:1743-1750 | An epoch that no surviving row mentions and that is not current is new to the whole history |
| `ResetProtocol.CommitEffect` | scripts/reset_monitoring_state.py:1790-1826 | A commit requires the whole observed state to equal the approved one and appends exactly one receipt for it |
| `ResetProtocol.NextKeepsInv` | scripts/reset_monitoring_state.py:1706-1843 | Every operator, environment or crash step keeps the receipts a chain of distinct epochs ending in the current one |
| `ResetTheorems.DeletionsCommitAtMostOnce` | scripts/reset_monitoring_state.py:1718-1737 | No operation commits its deletions twice over any run with retries, races, environment writes and lost acknowledgements |
| `ResetTheorems.RecordedOperationWritesNothing` | scripts/reset_monitoring_state.py:1732-1735 | Once an operation has a receipt, executing it under any manifest replays or refuses, and writes nothing |
| `ResetTheorems.EpochIsLast` | scripts/reset_monitoring_state.py:1743-1750 | The receipts form a chain from each old epoch to the next new one, all distinct, ending in the current epoch |
| `ResetTheorems.EpochNeverReturns` | scripts/reset_monitoring_state.py:1743-1750 | The control epoch is equal at two times if and only if no reset was recorded in between |
| `ResetTheorems.StaleManifestNeverCommits` | scripts/reset_monitoring_state.py:1736-1737 | A manifest planned before another reset can never commit |
| `ResetTheorems.CommitAccounts` | scripts/reset_monitoring_state.py:1751-1777 | A commit empties the cleared tables, leaves all others as they were, and its receipt counts exactly what was deleted and retained |
| `ResetTheorems.EveryResetIsAccounted` | scripts/reset_monitoring_state.py:1804-1816 | Every reset ever recorded satisfies before = deleted + retained against the state its manifest approved |
| `ResetTheorems.ReplayExactlyWhileLatest` | scripts/reset_monitoring_state.py:1698-1704 | Executing again returns the stored receipt if and only if that reset is still the latest, and in the first transaction the server is the same |
| `ResetTheorems.ReconcileIsExact` | scripts/reset_monitoring_state.py:1827-1843 | After an uncertain commit, reconciliation reports success if and only if the commit happened, is still the latest and the server is the same |
| `ResetTheorems.ReadDecides` | scripts/reset_monitoring_state.py:1706-1729 | In every state of every run an operator goes on to its second transaction exactly without a receipt of its operation |
| `ResetTheorems.ExecuteDecides` | scripts/reset_monitoring_state.py:1730-1826 | In every state of every run an operator resets exactly when it may, keeping and counting as above; a commit lost before it arrived leaves everything as it was |
| `ResetTheorems.ReconcileDecides` | scripts/reset_monitoring_state.py:1827-1843 | In every reachable state reconciling ends with the stored receipt exactly while it is the latest, and changes nothing |
| `PipelineClaims.Sweeper.RunPipelineFailure` | src/triage/runner.py:1089-1125 | One undisturbed sweep, with its finally block: it triages exactly on a claim won for an unmarked run that still failed, marks exactly a durable outcome, and gives its claim back on every path |
| `PipelineClaims.Sweeper.TryClaim` | src/triage/store/claims.py:90-189 | A claim is won on a free row or an expired one; at the instant of expiry itself only in the store of a process |
| `PipelineClaims.Sweeper.GiveBack` | src/triage/store/claims.py:99-215 | A release deletes the claim of its owner; in the store of a process it deletes anybody's |
| `PipelineClaims.SweepIsItsSteps` | src/triage/runner.py:1089-1125 | The sequential sweep is the composition of the atomic steps that interleave in the concurrent model |
| `PipelineClaims.ClaimDecides` | src/triage/runner.py:1089-1094 | A claim is won exactly on a free or expired key, and then held until the lease ends |
| `PipelineClaims.ChecksDecide` | src/triage/runner.py:1096-1103 | A claimed sweep goes on exactly with an unmarked run, and a checked one gives up or begins its triage |
| `PipelineClaims.EndsDecide` | src/triage/runner.py:1116-1125 | A triage ends with its mark or without, and the sweep leaves and gives its claim back by the rule of its store |
| `PipelineClaims.DeathDecides` | src/triage/runner.py:1124-1125 | A death marks nothing; it leaves a durable claim standing and gives back the claim of a process |
| `PipelineTheorems.NextKeepsInv` | src/triage/runner.py:1089-1125 | Every step that overtakes nobody keeps: sweeps of a pipeline apart, each with its claim, working on unmarked runs, and all triages accounted for |
| `PipelineTheorems.OneSweepPerPipeline` | src/triage/runner.py:1089-1094 | Over every run, two sweeps work on one pipeline at some time if and only if a claim was won on a pipeline another sweep still worked on |
| `PipelineTheorems.NeverTriagedAfterMark` | src/triage/runner.py:1098-1101 | No triage of a marked run ever begins as long as nobody wins the claim of a pipeline another sweep still works on, whichever stores the sweeps claim in |
| `PipelineTheorems.TriagesAreAccounted` | src/triage/runner.py:1116-1125 | Under the same condition, triages of a run = endings without a mark + the one in flight + the mark, and the last two never exceed one together |
| `PipelineTheorems.TriagedAtMostOnce` | src/triage/runner.py:1116-1125 | Under the same condition and with no death and no unmarked ending, every run is triaged at most once |
| `PipelineTheorems.LateSweepTriagesAgain` | src/triage/runner.py:1091-1125 | Whenever the times do not fit in the lease, for the store at hand, or the sweeps claim in stores of their own, a schedule within those times triages a marked run |
| `PipelineTheorems.OvertakenSweepLetsAThirdIn` | src/triage/store/claims.py:99-101 | After an overtaken sweep left, a third one gets in beside the second if and only if the store is that of a process |
| `PipelineTheorems.LeaseSufficesExactly` | src/triage/runner.py:1089-1125 | Every schedule within given times leaves marked runs alone if and only if all sweeps claim in one store and reads and triage together take at most the lease, or less than it in the store of a process |
| `PipelineTheorems.SixtySecondsOfSlack` | src/triage/runner.py:1023-1026 | For the lease and the timeout that the source computes, that is so if and only if the reads before the triage and the recording after its cut-off take at most 60 seconds, or less than 60 in the store of a process |
| `PoolDrain.Monitor.DrainMonitoringWork` | src/triage/runner.py:2061-2146 | The nested loops with their returns equal the recursive drain: same trace of attempts, same pools, same reason to stop |
| `PoolDrain.ClaimsOnlyWhileOpen` | src/triage/runner.py:2094-2111 | Every claim was admitted by the budget both before the attempt and in the claiming thread |
| `PoolDrain.BorrowsOnlyWhenOwnIsEmpty` | src/triage/runner.py:2086-2122 | Unless admission reopens right after it closed inside a claim, an attempt on the other pool follows, in the same round, a look at an empty own pool; a clock that never goes back does not reopen |
| `PoolDrain.BorrowsEarlyExactlyWhenAdmissionReopens` | src/triage/runner.py:2094-2111 | From any state, some contents of the pools make a round borrow while its own pool holds work if and only if admission is open, closed inside the claim, and open again |
| `PoolDrain.StopsForAReason` | src/triage/runner.py:2091-2124 | The drain claims its full limit if and only if it stops at the limit; otherwise the budget was seen closed or nothing was found |
| `PoolDrain.NothingFoundMeansEmpty` | src/triage/runner.py:2123-2124 | Unless admission reopens that way, stopping for lack of work means both pools were seen empty, or the budget closed during the last look |
| `PoolDrain.PreferredPoolIsServed` | src/triage/runner.py:2086-2090 | While the budget stays open, the first min(rounds, waiting) items of the preferred pool are claimed, in order, however full the other pool is kept |
| `DrainTrace.DrainIsInOrder` | src/triage/runner.py:2061-2124 | Every attempt follows from those before it: a round begins with the preferred pool, turns to the other after an empty look, ends with the first claim, and each attempt asks the budget twice; a drain whose budget is closed at first does nothing |
| `DrainTrace.LimitIsTheNumberTaken` | src/triage/runner.py:2091-2091 | The drain stops at the limit if and only if it took limit items, held between 1 and 100 |
| `DrainTrace.DrainConserves` | src/triage/runner.py:2103-2124 | While nobody else touches the pools, what each held is what was claimed from it, in order, followed by what it still holds |
| `ValidationBatch.Pool.TakeTurn` | command-center/src/validation.ts:29-36 | One turn of a worker, up to its await or its return, is the specified turn |
| `ValidationBatch.Pool.HandleReply` | command-center/src/validation.ts:37-45 | Handling an answer records it, makes the pool unconfirmed exactly on status 0, 401, 403 or the explicit code, and goes on until the next await |
| `ValidationBatch.Pool.Finish` | command-center/src/validation.ts:47-49 | The skip loop marks exactly the scenarios never started, in order, and the verdict is unconfirmed, stopped or completed by the two flags in that order |
| `ValidationBatch.StepDecides` | command-center/src/validation.ts:29-45 | What any step of any worker changes: the answer it records, the flags, and either the next scenario started or the worker gone |
| `ValidationBatch.PoolStartsFull` | command-center/src/validation.ts:47-47 | After their first turns the workers, as many as the concurrency and the scenarios allow, await one scenario each |
| `ValidationBatch.NextKeepsInv` | command-center/src/validation.ts:27-46 | Every interleaving of the workers keeps the invariant over cases, update history and worker states |
| `ValidationBatch.ScenariosAdvanceInOrder` | command-center/src/validation.ts:25-46 | Scenarios start once each, in order, and each goes queued, running, then finished or error |
| `ValidationBatch.RunningNeverExceedsThePool` | command-center/src/validation.ts:47-47 | The running scenarios are exactly the awaited ones and never exceed the pool size |
| `ValidationBatch.NothingStartsAfterUnconfirmed` | command-center/src/validation.ts:29-44 | After an unconfirmed error nothing more is started, however long the pool goes on |
| `ValidationBatch.UnconfirmedHasACause` | command-center/src/validation.ts:40-44 | The pool is unconfirmed if and only if some handled reply was an unconfirmed error |
| `ValidationBatch.EveryScenarioEndsOnce` | command-center/src/validation.ts:47-49 | When all workers have returned, each scenario was run to an answer or skipped, never both |
| `ValidationBatch.CompletedSkipsNothing` | command-center/src/validation.ts:48-49 | The completed verdict is only given when nothing was skipped |
| `ValidationBatch.StoppedMeansSkipped` | command-center/src/validation.ts:29-49 | With a stop signal that stays set, the verdict is stopped if and only if something was skipped and no reply was unconfirmed |
| `ValidationBatch.StoppedMeansSawStop` | command-center/src/validation.ts:29-32 | Without an unconfirmed reply, the pool is stopped if and only if some turn saw the signal set while work was left, and with nothing left if and only if a later turn started the last scenario |
| `ValidationBatch.StoppedSkipsNothingExactlyWhenTheSignalBlinks` | command-center/src/validation.ts:29-49 | A finished run without an unconfirmed reply reports stopped with nothing skipped if and only if some turn saw the signal set while work was left and a later turn started the last scenario |
| `ValidationBatch.BlinkingStopSkipsNothing` | command-center/src/validation.ts:29-32 | A stop signal seen once and then cleared is reported as stopped although every scenario ran |
| `ValidationBatch.EveryMoveIsProgress` | command-center/src/validation.ts:27-46 | Every enabled move shrinks the remaining work, so every schedule ends |
| `JsonContainment.ReflexiveExactlyWithoutNaN` | scripts/monitoring_eventstream_canary.py:406-422 | A value contains itself if and only if no NaN occurs in it |
| `JsonContainment.Transitive` | scripts/monitoring_eventstream_canary.py:406-422 | Containment is transitive through objects, pointwise lists and string lists compared as multisets |
| `JsonContainment.MutualContainment` | scripts/monitoring_eventstream_canary.py:406-422 | Two values contain each other if and only if they are NaN-free and equal up to the order of their string-only lists |
| `JsonPaths.ContainsExactlyByDemands` | scripts/monitoring_eventstream_canary.py:406-422 | A value contains another if and only if, at every path of the expected one, the actual one meets the demand there: fields present, lists as long, lists of strings equal as multisets, scalars equal |
| `JsonPaths.AddingAFieldKeepsContainment` | scripts/monitoring_eventstream_canary.py:408-412 | At any depth, a field more in the actual value that the expected one does not name keeps containment |
| `JsonPaths.DroppingAFieldKeepsContainment` | scripts/monitoring_eventstream_canary.py:408-412 | At any depth, a field less in the expected value keeps containment |
| `JsonPaths.AMissingFieldRefuses` | scripts/monitoring_eventstream_canary.py:408-412 | At any depth, an expected field that is missing refuses |
| `JsonPaths.ListsCompareInOrderUnlessOnlyWords` | scripts/monitoring_eventstream_canary.py:413-421 | Lists of other lengths refuse; two lists of strings compare as multisets, any others element by element in order |
| `JsonPaths.OthersMayNot` | scripts/monitoring_eventstream_canary.py:413-421 | With one element that is no string, order matters |
| `JsonPaths.OneWayOnly` | scripts/monitoring_eventstream_canary.py:408-412 | A field more is contained one way and not the other |
| `ApplicationPatch.ApplicationPatch` | scripts/register_command_center.py:243-317 | The merge carried out list by list on copies equals the specified patch or refusal, reasons included |
| `ApplicationPatch.EnsureRow` | scripts/register_command_center.py:237-240 | Finding the unique match, adjusting it in place, appending a new row or refusing equals its specification |
| `ApplicationPatch.EnsureSettles` | scripts/register_command_center.py:237-289 | After a row was ensured exactly one row matches, it is as wanted, and every earlier row keeps its place |
| `ApplicationPatch.EnsureKeepsSettled` | scripts/register_command_center.py:251-289 | Ensuring one row does not disturb a row another rule has settled |
| `ApplicationPatch.DedupeIsAFixpoint` | scripts/register_command_center.py:290-309 | dedupe(dedupe(xs + ys) + ys) = dedupe(xs + ys) |
| `ApplicationPatch.StoredPatchIsAFixpoint` | scripts/register_command_center.py:243-317 | Recomputing the patch on an application that stored it gives the same patch, whatever new identifiers are drawn |
| `ApplicationPatch.PatchKeepsRows` | scripts/register_command_center.py:251-316 | Every scope, preauthorization, role and resource permission survives at its place with its identity |
| `ApplicationPatch.PatchKeepsNames` | scripts/register_command_center.py:290-309 | Redirects, tags and identifier URIs keep their order of first occurrence, gain exactly the added names, and are distinct |
| `ApplicationPatch.PatchProvides` | scripts/register_command_center.py:251-316 | The patch holds the scope, the four roles and both permissions, each exactly once |
| `ApplicationPatch.MergeSucceedsExactlyWhenMergeable` | scripts/register_command_center.py:237-317 | The merge succeeds if and only if the registration is single-tenant, secretless, has no duplicate of a needed row and no such role for applications |
| `PatchContents.PatchSettings` | scripts/register_command_center.py:264-299 | Both implicit grants and the fallback client are off, audience single-tenant, token version 2, the display name the given one, and what the merge does not name is unchanged |
| `PatchContents.PatchNames` | scripts/register_command_center.py:290-309 | Each merged list of names is the distinct names in the order of their first places, the existing ones before the added |
| `PatchContents.PatchScopes` | scripts/register_command_center.py:251-263 | The scopes are the existing ones in place with the needed one enabled, or followed by a new one with the fresh identifier, the declared texts, enabled and for users |
| `PatchContents.PatchAuthorizations` | scripts/register_command_center.py:265-272 | The preauthorizations are the existing ones, with that of the command line gaining the scope if it lacked it, or followed by a new one; untouched when not asked for |
| `PatchContents.PatchRoles` | scripts/register_command_center.py:273-289 | Each existing role stays, a needed one enabled with its declared description; each role added is a needed one that was missing, with the fresh identifier, declared names, enabled and for users only |
| `PatchContents.PatchHasTheFour` | scripts/register_command_center.py:278-289 | None of the four roles is missing from the patch |
| `PatchContents.PatchAccess` | scripts/register_command_center.py:301-316 | The resource permissions are the existing ones, with those of Graph and of the own API gaining exactly the needed permission |
| `PatchContents.MergeSucceedsExactlyWhenClean` | scripts/register_command_center.py:237-317 | The merge succeeds if and only if the registration is clean, said of its rows place by place |
| `PatchContents.UnchangedMeansEqual` | scripts/register_command_center.py:414-414 | Nothing is written if and only if every patched key of the registration already equals the patch |
| `ApplicationPatch.RerunWritesAgainExactlyWithExtraRoleKeys` | scripts/register_command_center.py:413-418 | A rerun on the stored registration writes again if and only if the directory returned role keys outside the merged ones |
| `Pagination.List` | scripts/reset_monitoring_state.py:676-714 | The listing returns the rows of the whole walk, and an error only if no whole walk fits the page budget |
| `Pagination.Collection` | scripts/register_command_center.py:218-234 | The same for the directory collection with its limit of 100 positions |
| `Pagination.FindOwned` | scripts/monitoring_eventstream_canary.py:336-365 | The search answers from the whole inventory: the one item that is mine, none if none is, ambiguous if two are; without a whole inventory it fails |
| `Pagination.ListReadsReplies` | scripts/reset_monitoring_state.py:684-714 | A reply is the last page exactly with only objects, no link and no sign of more; it continues exactly at a link or token in scope and in agreement; anything else is broken |
| `Pagination.CollectionReadsReplies` | scripts/register_command_center.py:218-234 | The same for the directory: last exactly with an empty next link, and the next position is that link |
| `Pagination.InventoryReadsReplies` | scripts/monitoring_eventstream_canary.py:336-365 | The same for the search: last exactly without cursor and continuation, and going on exactly at a cursor of at most 4096 characters |
| `Pagination.WholeIsUnique` | scripts/reset_monitoring_state.py:676-714 | A walk has at most one whole result |
| `Pagination.ListStaysInScope` | scripts/reset_monitoring_state.py:705-712 | A listing never asks for a position outside its original scope after the first |
| `Pagination.RepeatIsNotWhole` | scripts/reset_monitoring_state.py:681-683 | A repeated position never belongs to a whole walk |
| `Pagination.RepeatMeansForever` | scripts/reset_monitoring_state.py:681-683 | On a server whose pages hold still, a repeated position means there is no last page at all |
| `Pagination.StableServerIsExhaustedExactlyWhenItEnds` | scripts/reset_monitoring_state.py:676-714 | On such a server the whole collection is obtained if and only if its last page lies within the budget |
| `Pagination.PagesComeBackWhole` | scripts/reset_monitoring_state.py:676-714 | A collection cut into linked pages comes back whole and in order if and only if the budget has room for its pages |
| `Ledgers.PolicyLedger.ChargeToolCall` | src/triage/policy.py:270-294 | Charging a call counts the attempt first, then checks deadline, allowlist and budget, each with its own outcome and entry, and defers the write when asked |
| `Ledgers.PolicyLedger.ChargeWrite` | src/triage/policy.py:296-306 | A write is charged within the budget or recorded as blocked |
| `Ledgers.ElapsedIsWorkingTimeExactlyWithoutOverlap` | src/triage/policy.py:192-215 | Elapsed time never exceeds the time worked, and equals it if and only if no two human waits overlap |
| `Ledgers.FreshLedgerShowsWorkingTimeExactlyWithoutOverlap` | src/triage/policy.py:192-215 | The same for any series of waits ended on a fresh ledger |
| `Ledgers.OverlappingWaitsAreSubtractedTwice` | src/triage/policy.py:192-215 | Two overlapping waits, ended on a fresh ledger, leave a run that worked with a negative elapsed time |
| `ApprovalGate.Channel.ConsumeExact` | src/triage/store/approvals.py:169-186 | Consuming succeeds if and only if the row is approved, unconsumed, unexpired and of exactly this fingerprint and the write succeeds; it then notes the time, and otherwise changes nothing |
| `ApprovalGate.Channel.OpenExact` | src/triage/store/approvals.py:134-147 | Opening registers an empty row for a new request and never overwrites a row; an open row of the same fingerprint is accepted |
| `ApprovalGate.Channel.DecideExact` | src/triage/store/approvals.py:149-167 | An answer is written if and only if it is one of the two words, has a responder and meets an open row of exactly this fingerprint |
| `ApprovalGate.WebGate.Receive` | src/triage/approvals.py:498-508 | An answered poll becomes a grant only with the exact fingerprint, a responder and an approval; its request is kept for consumption |
| `ApprovalGate.WebGate.Consume` | src/triage/approvals.py:519-527 | Consuming forgets the request whatever happens, checks validity, then consumes the row |
| `ApprovalGate.AnswersExactly` | src/triage/approvals.py:498-508 | A read answer is a grant or a denial exactly for the same fingerprint, a responder and the word, and only a grant is ever valid, to its deadline |
| `ApprovalGate.SpendsExactlyWhen` | src/triage/approvals.py:519-527 | A decision is spent if and only if its request is kept, it is a grant of it within its deadline and its row can be consumed; the request is forgotten either way |
| `ApprovalGate.DecisionIsSpentOnce` | src/triage/approvals.py:519-527 | A decision authorises at most once, whatever the channel holds later |
| `ApprovalGate.ApprovalLastsToTheWholeSecond` | src/triage/store/approvals.py:67-101 | An approval opened, answered and polled can be spent if and only if the time is before the whole second in which the request expires |
| `ApprovalGate.ValidDecisionIsRefusedExactlyInTheLastSecond` | src/triage/approvals.py:126-140 | The decision is still called valid and the channel refuses it exactly from that whole second to the deadline, both included |
| `ApprovalRun.NextKeepsBudgeted` | src/triage/policy.py:270-306 | Every step keeps: writes charged = remediations performed + the one in hand, within the budget |
| `ApprovalRun.PerformedWritesStayWithinBudget` | src/triage/policy.py:296-306 | Over every run the remediations performed never exceed the write budget |
| `ApprovalRun.RefusalsCostNothing` | src/triage/tools/registry.py:509-612 | A run that comes back to rest having performed as many remediations as before has spent as much of the write budget, whatever was denied, timed out, refused or blocked between |
| `ApprovalRun.ClockShowsWorkingTime` | src/triage/policy.py:192-215 | Over every run, outside a wait, elapsed time is exactly the time in which the run waited for nobody |
| `ApprovalSteps.BeginDecides` | src/triage/policy.py:270-294 | A call goes on to its checks exactly within the deadline, the allowlist and the tool budget; one that is not allowed is blocked, anything else ends the run |
| `ApprovalSteps.FailedCheckChangesNothing` | src/triage/tools/registry.py:549-560 | A failed first check leaves rows, waits, consents, writes and performances as they were and brings the run to rest |
| `ApprovalSteps.PassedCheckLeadsOn` | src/triage/tools/registry.py:549-573 | A passed first check carries out what only reads, sends a refresh to its second check and asks about anything gated |
| `ApprovalSteps.GatedCallAsks` | src/triage/tools/registry.py:624-710 | A person is asked about exactly this call, under the run's own request, exactly when there is a gate and the channel accepts the request; otherwise the action is denied |
| `ApprovalSteps.PollDecides` | src/triage/approvals.py:498-508 | No answer, no change; an attributed approval of exactly this request within its deadline leads to the second check; any other answer is a denial; the wait is off the clock |
| `ApprovalSteps.RecheckDecides` | src/triage/tools/registry.py:572-612 | After the second check a call is paid for and in hand exactly with budget left, preconditions that hold and, if an approval is pending, one that can be spent |
| `ApprovalSteps.RecheckTakesThePending` | src/triage/tools/registry.py:592-599 | The consent taken is the kept request of the pending approval, and its row is the only one touched |
| `ApprovalSteps.OthersDecide` | src/triage/store/approvals.py:110-186 | Time and other users of the channel change only the clocks and, by the channel's rules, its rows |
| `ApprovalSteps.EveryPerformanceIsVetted` | src/triage/tools/registry.py:509-612 | Over every run, each performance follows a passed first check of its own call, and for every remediation but a rebind a passed second check after it |
| `ApprovalConsent.RunKeepsConsent` | src/triage/tools/registry.py:569-612 | Over every run the consents consumed are backed by distinct approved rows and are, in order, those the performances carry |
| `ApprovalConsent.GatedActionsHaveTheirOwnApproval` | src/triage/tools/registry.py:624-710 | A gated action is only performed on a row that someone approved for exactly that action and arguments, consumed before it expired |
| `ApprovalConsent.ApprovalsAreSingleUse` | src/triage/store/approvals.py:169-186 | No two performances share an approval |
| `ApprovalConsent.ConsentIsNeverWasted` | src/triage/tools/registry.py:569-612 | Every consumed approval is performed: nothing can refuse between consumption and charge |
| `ApprovalLending.SpentConsentIsOwnExactlyWhenGated` | src/triage/tools/registry.py:592-599 | A performance that spent a consent spent its own if and only if its action needs one |
| `ApprovalLending.OnlyARefreshBorrowsAndNeverFromARebind` | src/triage/tools/registry.py:569-612 | Over every run a consent is carried by the call it was given for, or by a refresh that took it from a rerun or a re-enable; a rebind's consent is never borrowed |
| `ApprovalLending.RefreshSpendsAnApprovalOf` | src/triage/tools/registry.py:592-599 | A rerun or a re-enable is approved and then refused at its second check; the refresh proposed next is carried out on that approval |
| `ApprovalLending.SomeRunBorrowsExactlyWhen` | src/triage/tools/registry.py:569-612 | Some run under a policy borrows a consent if and only if the policy allows the refresh together with a rerun or a re-enable, one write and two calls |
| `ApprovalLending.AgentRunsBorrowOnlyFromAReenable` | src/triage/agents/triage_agent.py:129-138 | Under the policies the agent derives, no pipeline run ever borrows, and a dataset run can, from a re-enable whose refresh history changed during the wait, if and only if the configuration allows both actions, one write and two calls |
| `ApprovalLending.AgentBorrowsFromAReenable` | src/triage/agents/triage_agent.py:129-138 | Whatever is borrowed in such a run was given for a re-enable and is borrowed by a refresh |
| `ApprovalLending.BorrowingNeedsARefusal` | src/triage/tools/registry.py:569-591 | Over every run, a borrowed consent was given for an action of which a call was refused at its second check; a run without such a refusal borrows nothing |
| `ApprovalLending.AgentBorrowsOnlyAfterARefusedReenable` | src/triage/agents/triage_agent.py:129-138 | No run of the agent borrows unless a re-enable was refused at its second check |
| `ApprovalLending.PendingApprovalDeniesUngated` | src/triage/tools/registry.py:592-599 | While an approval is pending whose action was never refused at a second check, an action that needs none is denied, with budget left and nothing consumed |
| `ApprovalLending.RefreshIsDeniedAfterAGatedAction` | src/triage/tools/registry.py:592-599 | A gated action is performed, and the refresh proposed next is denied with budget left |

## Left out

- SQL text, catalogue comparison, empty-schema and security checks of the bootstrap and the reset: each is one observation that passes or refuses, because they are flat comparisons of metadata.
- The approval arguments of `_validate_mode` and the confirmation hash of `execute`: equality checks before the first transaction.
- Batches that change the transaction boundary themselves: they refuse and roll back like any failing batch.
- The schema reinitialisation after a committed reset: it reruns an idempotent script that is not part of this model.
- The initialisation and capture paths of the reset operator: only their receipts appear, as rows that survive.
- The header match of `CREATE TABLE` by regular expression: the body scanner starts where the match ends.
- Live observers, Graph, Fabric, Power BI and Event Hubs requests: they appear as replies or as observations that pass or refuse.
- A release that fails against the durable store, and a claim refused because the database is away: the first is a sweep that dies while leaving, the second a sweep that never started.
- The processed log is one atomic set for all sweeps; how its file is written is not part of this model.
- PoolDrain.Monitor.DrainMonitoringWork: does not model an exception from executing a claimed item, which ends the drain, nor what executing does.
- URL parsing and query comparison in the listing: an abstract scope test and continuation-token lookup.
- Pagination.List: the reasons of failures are not distinguished, only whether a whole result exists.
- JsonContainment.Transitive: infinities are not modelled; floats are reals or NaN.
- ApplicationPatch.ApplicationPatch: keys of rows that the merge never reads are gathered in one opaque text, and missing lists count as empty.
- Dispatch with a monitoring lease, whose reservation consumes consent and budget in SQL: not part of this model; the path without a lease is.
- Plain `open` and `reset` of the approval channel, which replace rows: the web gate never uses them, and with them an approval could be consumed twice.
- The deterministic gates and the Teams gate, whose single use is a set of spent identifiers.
- ApprovalRun.NextKeepsBudgeted: the two budget checks of a pipeline rerun are one, and controller-owned rerun arguments are the call's arguments.
- The answer of a precondition that reads the retry store, the refresh history or the pipeline is any answer; a rebind's second check repeats the first, because it reads nothing that changes within a run.
- Lower-casing of decisions is for ASCII letters only.
- User interface, prompts, settings, telemetry, rendering, signatures and redaction.
