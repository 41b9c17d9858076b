# Verification of the LiquiLens safety core

This project models the parts of LiquiLens that keep a paper order from being sent twice, a receipt from
outliving its truth, and evidence from being shown where it may not be, and proves properties of the model
with Dafny 4.11. `dafny verify dfyconfig.toml` checks all of it. Nothing of the original program is executed.

| files | what they model |
|---|---|
| `SubmissionJournal`, `SubmissionAnswers`, `SubmissionTables`, `SubmissionProtocol`, `SubmissionOwnership`, `SubmissionClaims`, `PaperAdapter` | the durable submission journal, each answer it gives and when, also on tables it has not written, many processes sharing it, and the broker adapter on top |
| `AgentLane` | the one serialized tool lane of an agent |
| `AccountLimits`, `PaperAgentService`, `PaperAgentAnswers` | the proposal lifecycle around that lane: account limits, reservations, callers, owned operations and worker threads; what each step does and exactly when |
| `PaperAgentRuns`, `PaperAgentTools`, `PaperAgentGuarantees`, `PaperAgentOrders` | its invariant, step by step; what every run guarantees; the lifecycle wired to the order guard and the journal, and a run that sends an order |
| `TradeSafety`, `TradeSafetyRecords`, `TradeSafetyDecision`, `TradeSafetyReasons` | the records and which of them pass validation, the policy decision, and each reason it gives with its own condition |
| `TradeSafetyLifetime`, `TradeSafetyReceipts`, `TradeSafetyEdges` | the separate expiry ceiling, issuing and verifying receipts, and the inputs on which less is checked than it seems |
| `PolicyGuard`, `UndertowContract`, `UndertowMeaning`, `Gateway`, `GatewayPass` | admission of caller policies, validation of the native venue measurement and what an accepted one means, one gateway assessment from end to end, and one that passes |
| `ReplayGuard`, `OrderGuard`, `OrderGuardRuns` | the forgetful in-memory claim store and the paper-order gateway in front of a broker, with runs that reach it |
| `CanonicalText`, `CanonicalTree`, `CanonicalReference`, `CanonicalHash` | the typed hash tree, its JSON and UTF-8 bytes, a decoder for them, and the text of every value written out |
| `RateLimits` | the token bucket and the sliding window |
| `EvidenceCarrier`, `FleetBrief`, `EvidenceMeaning` | the disclosure lattice, carriers, fleet briefs issued and verified independently, and what each discloses, field by field |
| `HostBackup`, `HostBackupSteps`, `HostBackupProcesses` | quiesce, capture and resume under a write-ahead intent: each operation under any faults, one backup process after another, and several at once |
| `Scorecard`, `ScorecardMeaning` | the aggregate traction report, and each of its numbers as the size of a set |
| `Basics`, `ReasonLists`, `Examples` | result types, clocks, text rules, ordered lists of reasons, and one concrete order with its policy and evidence, shared by the rest |

## Conventions

- Time is an integer number of microseconds (whole seconds in the scorecard), money, basis points and tokens
  are reals, so IEEE rounding and `timedelta` overflow are outside the model. Floats inside hashed values are
  their 64-bit patterns.
- SHA-256 and HMAC are functions of what they cover. Where a statement needs that two digests do not collide,
  it says so for the two records it is about.
- A commit or a durable file write is one atomic step, and an exception can be raised before or after it.
- What the clock, the network, the broker, a user or a crash contributes is a parameter of the call or an
  event of the run; a theorem about runs holds for every sequence of them.
- Code that updates state is a class whose methods are proved equal to specification functions; the theorems
  are about those functions and about runs of them. What those functions answer is stated a second time, condition
  by condition on the inputs and without naming them, in the lemmas whose names end in `ExactlyWhen`, `Exactly`,
  `Writes`, `Means` or `OnAnyTable`. Records start typed: exact key sets, non-blank text, URLs
  and regular expressions are taken as checked where they decide nothing else.

## Where the code and its promises differ

- **Overtaken submitter on one handle.** A reconciler that finds the order first does not disturb the submitter
  in another process, but on the same journal handle it pops the in-memory claim, so the submitter's
  `mark_submitted` fails and the caller is told "uncertain" although the row is already reconciled. Which runs
  keep the claim is `SubmissionOwnership.ClaimSurvivesExactlyWhen`, the exact condition for recording an acceptance
  `AcceptanceIsRecordedExactlyWhen`, and a failing run `OvertakenOnSameHandleFails`.
- **A broker id with a NUL character** passes the adapter and is refused by the journal; this is the other half
  of the same condition, with the call in `SubmissionOwnership.NulIdentityIsNotRecorded`.
- **The in-memory replay guard** is replay-safe exactly when no receipt id comes back with a later expiry
  (`ReplayGuard.ReplaySafeExactlyWhenExpiryNeverGrows`). The gateway above it always satisfies this for one and
  the same receipt; two receipts share an id exactly when the first 24 digits of their digests collide
  (`OrderGuard.OneIdTwiceIsPrefixCollision`), and then both can be sent (`OrderGuardRuns.OneIdentityReachesTwice`).
- **Null size facts.** Undertow size facts may be present but null, and the evaluator then makes no size
  comparison: the checks hold exactly when the numbers are stated (`TradeSafetyEdges.SizeHoldsExactlyWhenStated`),
  a null lets everything through and nothing else does (`NullSizeLetsEveryNotionalThrough` and its siblings), and
  `NullSizesPass` is a PASS on nulls. `Gateway.PassMeaning` holds because the native contract never yields nulls.
- **Age and ceiling.** Staleness uses a strict comparison while the ceiling includes equality, so evidence
  exactly at its greatest age passes the evaluator and leaves no window: exactly then
  (`TradeSafetyLifetime.NoWindowExactlyAtAgeLimit`), as in `TradeSafetyEdges.PassAtAgeLimitIsRefused`.
- **Policies that hold every regime and cap something** never get as far as their caps, so such a policy is never
  better than the same policy with a cap halved, without being tighter. "Tighter" is the right order for exactly the
  other policies (`PolicyGuard.TighterIsExact`); the right order for all of them is `PolicyGuard.NeverBetterExactly`.
- **A worker outlives its cancelled operation.** A caller that goes away releases nothing, as the service promises
  (`PaperAgentGuarantees.WorkersNeverOverlap`). If the owned operation itself is cancelled, its finally clause frees
  the lane while the worker thread goes on, and a second worker can then start exactly when the service is still
  open (`CancellationDecides`, and a run in `PaperAgentOrders.WorkersCanOverlap`). The tools' own lock and the pending
  reservation still keep every broker call guarded (`LaneIsSerial`, `EverySubmissionIsGuarded`).
- **Cancelled before its first step,** an operation never enters the `try` whose finally clause clears the busy flag,
  so the service refuses every request until it is restarted; this is the only way it is busy without an operation
  (`PaperAgentGuarantees.BusyExactlyWhen`).
- **Two backup processes.** The last step of a backup reads its intent and completes it under no lock, so it can
  overwrite the intent of a process that has stopped the host since; the host then stays stopped, exactly when it was
  stopped already (`HostBackupProcesses.OverwriteDecides`, `HostStaysStopped`). A second snapshot also overwrites the
  intent that names the first one's plaintext, which nothing removes afterwards (`SecondSnapshotDisowns`,
  `OrphansStay`). As long as neither kind of write falls on another process's intent, everything promised holds
  (`HostComesHome`, `NoPlaintextIsLeft`).

## Model

| member | source | states |
|---|---|---|
| SubmissionJournal.ConsumeKeeps | integrations/alpaca-paper/src/liquilens_alpaca_paper/journal.py:541-600 | A claim keeps every row readable, owned exactly while claimed or submitting, with ordered clocks under the shared clock; rows only move forward and are never deleted. |
| SubmissionJournal.BeginKeeps | integrations/alpaca-paper/src/liquilens_alpaca_paper/journal.py:602-659 | The same for claimed to submitting; and the transaction can never find its own row corrupt. |
| SubmissionJournal.FinishKeeps | integrations/alpaca-paper/src/liquilens_alpaca_paper/journal.py:701-777 | The same for submitting to submitted or uncertain, including the overtaken case in which a reconciled row with the same broker id is returned unchanged. |
| SubmissionJournal.ReconcileKeeps | integrations/alpaca-paper/src/liquilens_alpaca_paper/journal.py:814-892 | The same for reconciliation from any eligible state, overwriting the broker id even from submitted. |
| SubmissionJournal.Journal.Consume | integrations/alpaca-paper/src/liquilens_alpaca_paper/journal.py:541-600 | The guarded insert has exactly the specified effect, with rollback and exceptions on either side of the commit; it answers "claimed" exactly for valid texts, a clock that has not gone back, a receipt not yet expired, a table with room, no identity in use, and no fault. |
| SubmissionJournal.Journal.BeginSubmission | integrations/alpaca-paper/src/liquilens_alpaca_paper/journal.py:602-659 | The guarded update likewise. |
| SubmissionJournal.Journal.FinishOwnedAttempt | integrations/alpaca-paper/src/liquilens_alpaca_paper/journal.py:661-777 | Both mark operations likewise, popping the claim only after a commit that is known to have happened. |
| SubmissionJournal.Journal.MarkReconciled | integrations/alpaca-paper/src/liquilens_alpaca_paper/journal.py:814-892 | Reconciliation likewise. |
| SubmissionJournal.Journal.RecordClock | integrations/alpaca-paper/src/liquilens_alpaca_paper/journal.py:425-442 | The shared clock refuses to go back and otherwise moves to the reading. |
| SubmissionAnswers.ClaimGrantedExactlyWhen | integrations/alpaca-paper/src/liquilens_alpaca_paper/journal.py:541-600 | Each answer of a claim has its own condition on the table and the arguments; it is granted only before the expiry and for an identity without a row. |
| SubmissionAnswers.ClaimWrites | integrations/alpaca-paper/src/liquilens_alpaca_paper/journal.py:564-600 | A granted claim adds this row, column by column, and remembers its token; a refused one leaves the table. |
| SubmissionAnswers.AttemptBegunExactlyWhen | integrations/alpaca-paper/src/liquilens_alpaca_paper/journal.py:602-659 | The attempt begins exactly for the holder of the claim, on a row still claimed under its token; each refusal has its own condition. |
| SubmissionAnswers.BeginWrites | integrations/alpaca-paper/src/liquilens_alpaca_paper/journal.py:634-659 | What beginning writes, column by column. |
| SubmissionAnswers.AttemptEndedExactlyWhen | integrations/alpaca-paper/src/liquilens_alpaca_paper/journal.py:661-777 | A mark succeeds exactly for the own attempt, or for an order that a reconciler has recorded under this very id. |
| SubmissionAnswers.EndingWrites | integrations/alpaca-paper/src/liquilens_alpaca_paper/journal.py:729-777 | What a mark writes, column by column: the id and no error type when submitted, the error type and no id when uncertain. |
| SubmissionAnswers.ReconciledExactlyWhen | integrations/alpaca-paper/src/liquilens_alpaca_paper/journal.py:814-892 | A reconciliation succeeds exactly from an open state of its kind, or again with the same result; each refusal has its own condition. |
| SubmissionAnswers.ReconciliationWrites | integrations/alpaca-paper/src/liquilens_alpaca_paper/journal.py:846-892 | What a reconciliation writes, column by column, and that a row already closed is left as it is. |
| SubmissionAnswers.ReadExactly | integrations/alpaca-paper/src/liquilens_alpaca_paper/journal.py:779-786 | A read answers with the row of the request, if there is one, and never finds a reachable row corrupt. |
| SubmissionTables.ReadableExactlyWhen | integrations/alpaca-paper/src/liquilens_alpaca_paper/journal.py:464-539 | Which rows the reader accepts, state by state; any other is reported as corrupt. |
| SubmissionTables.ReadOnAnyTable | integrations/alpaca-paper/src/liquilens_alpaca_paper/journal.py:779-786 | A read on any table, sound or not. |
| SubmissionTables.BegunOnAnyTable | integrations/alpaca-paper/src/liquilens_alpaca_paper/journal.py:619-659 | Beginning an attempt on any table: the row must be the claim's own in every column, and readable afterwards. |
| SubmissionTables.EndedOnAnyTable | integrations/alpaca-paper/src/liquilens_alpaca_paper/journal.py:718-777 | Ending one on any table likewise, the overtaken row included. |
| SubmissionTables.ReconciledOnAnyTable | integrations/alpaca-paper/src/liquilens_alpaca_paper/journal.py:840-892 | Reconciling a row on any table likewise. |
| Basics.DigestMeans | integrations/alpaca-paper/src/liquilens_alpaca_paper/journal.py:149-155 | A request hash is 64 lowercase hexadecimal digits. |
| CanonicalText.Utf8LengthCounts | integrations/alpaca-paper/src/liquilens_alpaca_paper/journal.py:137-146 | The length that bounds an identity is the number of its UTF-8 bytes. |
| SubmissionJournal.ClientOrderIdInjective | integrations/alpaca-paper/src/liquilens_alpaca_paper/journal.py:158-161 | Different requests have different client order ids, so the broker tells them apart. |
| SubmissionProtocol.RunKeeps | integrations/alpaca-paper/src/liquilens_alpaca_paper/journal.py:541-892 | Every interleaving of any number of processes, crashes, restarts and faults keeps the journal invariant and only moves rows forward. |
| SubmissionProtocol.AtMostOneBrokerCall | integrations/alpaca-paper/src/liquilens_alpaca_paper/adapter.py:332-379 | In every such run the broker is asked to submit at most once per request hash and at most once per receipt id. |
| SubmissionClaims.RowsAreClaimedInTime | integrations/alpaca-paper/src/liquilens_alpaca_paper/journal.py:553-600 | In every such run the table stays within its capacity, and every row was claimed before its expiry, for a receipt, request and expiry that some submitter was given. |
| SubmissionClaims.CallsAreClaimedInTime | integrations/alpaca-paper/src/liquilens_alpaca_paper/adapter.py:332-397 | In every such run each broker call belongs to a row of its own receipt that was claimed before that receipt expired. |
| SubmissionProtocol.ReachableRowsAreSound | integrations/alpaca-paper/src/liquilens_alpaca_paper/journal.py:464-539 | Every reachable row passes the row reader; owner, attempts and lifecycle clocks fit its state. |
| SubmissionProtocol.NotSubmittedIsTrue | integrations/alpaca-paper/src/liquilens_alpaca_paper/adapter.py:399-422 | A row reconciled as not submitted had no broker call before and has none in any continuation, even when reconcilers race submitters. |
| SubmissionOwnership.BrokerIdsAreTrue | integrations/alpaca-paper/src/liquilens_alpaca_paper/adapter.py:346-357 | With a broker that keeps one order per client order id, every broker id in the journal is that order's id. |
| SubmissionOwnership.MarkSubmittedSucceedsIffClaimHeld | integrations/alpaca-paper/src/liquilens_alpaca_paper/journal.py:701-777 | After the broker answered, recording the acceptance succeeds exactly when this process still holds its claim in memory and the id has no NUL, whatever reconcilers did; a row reconciled first comes back unchanged. |
| SubmissionOwnership.ClaimSurvivesExactlyWhen | integrations/alpaca-paper/src/liquilens_alpaca_paper/journal.py:661-777 | Over any run a claim survives exactly when its process neither crashed nor closed, and neither marked the attempt nor itself reconciled the open row; what other processes do to the row does not matter. |
| SubmissionOwnership.AcceptanceIsRecordedExactlyWhen | integrations/alpaca-paper/src/liquilens_alpaca_paper/journal.py:701-777 | From any point at which the claim is held, the acceptance of an answered call is recorded exactly when none of that has happened since and the id has no NUL. |
| SubmissionOwnership.MarkUsesClaimAsRead | integrations/alpaca-paper/src/liquilens_alpaca_paper/journal.py:718-728 | The claim is read before the lock is taken: whenever it was read, recording succeeds exactly when it was held then and the id has no NUL. |
| SubmissionOwnership.BeginUsesClaimAsRead | integrations/alpaca-paper/src/liquilens_alpaca_paper/journal.py:619-647 | The claim of a begin is read before the lock too: whenever it was read, the begin succeeds exactly when it was held then and its row is still claimed, so an early reading begins nothing twice. |
| SubmissionOwnership.NulIdentityIsNotRecorded | integrations/alpaca-paper/src/liquilens_alpaca_paper/adapter.py:167-190 | The concrete answered call whose id holds a NUL: the claim is held and recording the acceptance fails. |
| SubmissionOwnership.OvertakenOnSameHandleFails | integrations/alpaca-paper/src/liquilens_alpaca_paper/journal.py:880-889 | The concrete run in which a reconciler on the same journal handle has popped the claim, so the later mark fails; it fails exactly when the reconciler shares the handle. |
| PaperAdapter.Gateway.SubmitAuthorized | integrations/alpaca-paper/src/liquilens_alpaca_paper/adapter.py:332-379 | One submission is the protocol pass begin, send, mark submitted, mark uncertain: without execution or a begun attempt no broker call; otherwise one, recorded as submitted under the id the broker named, or else as uncertain, and answered so. |
| PaperAdapter.Gateway.Submit | integrations/alpaca-paper/src/liquilens_alpaca_paper/adapter.py:381-397 | Claim and submission together are that pass after a consume; without an own claim the broker is not called and the claim's own answer is given. |
| PaperAdapter.Gateway.Reconcile | integrations/alpaca-paper/src/liquilens_alpaca_paper/adapter.py:399-443 | Reconciliation is the protocol pass read, resolve claim, look up, record; a missing, final, claimed or open record each has its own answer and effect. |
| AgentLane.AtMostOneUnresolved | integrations/alpaca-paper/src/liquilens_alpaca_paper/agent_tools.py:305-346 | With one serialized owner, across all crashes and restarts, at most one row is ever claimed, submitting or uncertain. |
| AgentLane.RecordedRequestNeverResent | integrations/alpaca-paper/src/liquilens_alpaca_paper/agent_tools.py:321-337 | Once a request is recorded and the lane is idle, no later tool call reaches the broker with it. |
| AgentLane.ProceedsExactlyWhen | integrations/alpaca-paper/src/liquilens_alpaca_paper/agent_tools.py:305-337 | A submission proceeds exactly for a digest without a row, with execution enabled and every row resolved; each other verdict has its own condition. |
| AgentLane.LaneExactly | integrations/alpaca-paper/src/liquilens_alpaca_paper/agent_tools.py:268-346 | A tool call starts a gateway call exactly when none is in flight and it proceeds; a restart loses calls and claims and no row. |
| TradeSafetyDecision.EvaluateDecision | src/liquilens_evidence/trade_safety.py:836-997 | The evaluator, filling its three reason lists in turn and never repeating a reason, gives exactly the specified decision, whose reasons and outcome the three rows below state. |
| TradeSafetyDecision.CollectEvidence | src/liquilens_evidence/trade_safety.py:851-880 | The loop over required products collects each product's reasons in order, also where reasons of different products look alike. |
| TradeSafetyReasons.ReasonsAreTheCatalogue | src/liquilens_evidence/trade_safety.py:851-997 | The reasons are exactly those of one fixed catalogue whose own condition holds, in its order, each condition written out on the inputs. |
| TradeSafetyReasons.ReportedExactlyWhen | src/liquilens_evidence/trade_safety.py:851-966 | Every reason code is reported exactly when its condition on request, evidence, preview, policy and clock holds: seven per product, five live, the regime, dollars and missing numbers, three limits. |
| TradeSafetyReasons.OutcomeExactlyWhen | src/liquilens_evidence/trade_safety.py:967-997 | The outcome is that of the gravest kind of reason that holds; enforcement, constraints and the resubmission flag are what the request and policy say. |
| TradeSafetyRecords.RequestAcceptedExactlyWhen | src/liquilens_evidence/trade_safety.py:316-461 | Which requests pass validation: positive amounts, a scope for the mode, prices that fit the order type, and time left. |
| TradeSafetyRecords.SectionAcceptedExactlyWhen | src/liquilens_evidence/trade_safety.py:554-715 | Which evidence sections pass: clocks in order, fields that fit the state, normative facts, and quotes of one product only. |
| TradeSafetyRecords.PreviewAcceptedExactlyWhen | src/liquilens_evidence/trade_safety.py:728-805 | Which previews pass, state by state. |
| TradeSafetyLifetime.OutcomeMeaning | src/liquilens_evidence/trade_safety.py:967-997 | Unavailable, hold, limit and pass each hold exactly when their declarative reading (evidence fit and comparable, regime held, a cap exceeded) does. |
| TradeSafetyLifetime.ReasonsAreWellFormed | src/liquilens_evidence/trade_safety.py:284-300 | Reason lists are never empty and never repeat a code, as the receipt validator demands. |
| TradeSafetyLifetime.ReceiptExpiryCeiling | src/liquilens_evidence/trade_safety.py:1000-1041 | The boundary list and its minimum compute the specified ceiling. |
| TradeSafetyLifetime.CeilingMeaning | src/liquilens_evidence/trade_safety.py:1012-1041 | An instant is below the ceiling exactly when it is inside the request window, the time to live, and every protected evidence and preview boundary. |
| TradeSafetyLifetime.DecisionHoldsBelowCeiling | src/liquilens_evidence/trade_safety.py:868-903 | A decision other than unavailable is given again, reasons included, at every later instant below the ceiling. |
| TradeSafetyLifetime.CeilingIsTight | src/liquilens_evidence/trade_safety.py:1018-1041 | The ceiling is not cautious: past it, inside the receipt's own window, the same policy answers unavailable. |
| TradeSafetyLifetime.NoWindowExactlyAtAgeLimit | src/liquilens_evidence/trade_safety.py:875-877 | There is no positive window exactly when some required product is exactly as old as its policy allows. |
| TradeSafetyEdges.SizeHoldsExactlyWhenStated | src/liquilens_evidence/trade_safety.py:927-938 | A dollar order that is not unavailable has the requested size of the evidence exactly when the evidence states one, and that size is the published rung exactly when both are stated; the only other case is a null. |
| TradeSafetyEdges.SizeReasonsReported | src/liquilens_evidence/trade_safety.py:927-938 | Each of the two size reasons is reported exactly when its comparison is made and fails. |
| TradeSafetyEdges.NullSizeLetsEveryNotionalThrough | src/liquilens_evidence/trade_safety.py:927-934 | The size check lets every notional through exactly when the requested size is null. |
| TradeSafetyEdges.NullRungLetsEverySizeThrough | src/liquilens_evidence/trade_safety.py:935-938 | The rung check lets every requested size through exactly when the published rung is null. |
| TradeSafetyEdges.NullSizeLetsEveryRungThrough | src/liquilens_evidence/trade_safety.py:935-938 | The rung check lets every published rung through exactly when the requested size is null. |
| TradeSafetyEdges.NullSizesPass | src/liquilens_evidence/trade_safety.py:687-728 | Concrete evidence whose sizes are null: orders of every size up to the cap get PASS on it. |
| TradeSafetyEdges.PassAtAgeLimitIsRefused | src/liquilens_evidence/trade_safety.py:1135-1155 | The concrete PASS on evidence exactly at its age limit that the issuer refuses for want of a window. |
| TradeSafetyReceipts.Issue | src/liquilens_evidence/trade_safety.py:1069-1189 | Issuing succeeds exactly on accepted inputs, all sections about this request, with a window left, and fails for the first check that fails; what it returns verifies with the same key at exactly the instants of its window. |
| TradeSafetyReceipts.AcceptedExactlyWhen | src/liquilens_evidence/trade_safety.py:1087-1130 | The issuer accepts exactly valid records whose three sections and preview carry this request's hash, a preview of the agent's account, the policy's own id and version, and a request in its time. |
| TradeSafetyReceipts.IssuedReceiptVerifies | src/liquilens_evidence/trade_safety.py:1240-1383 | The issuer's record passes every check of the independently written verifier exactly from issue until expiry. |
| TradeSafetyReceipts.VerifiedExactlyWhen | src/liquilens_evidence/trade_safety.py:1240-1383 | What the verifier accepts, with no check function named: valid records, all evidence about this request and policy, no authority, times in order with at most an hour of life inside every boundary, an authentic seal, and the evaluator's own decision. |
| TradeSafetyReceipts.RefusedOnlyAtAgeLimit | src/liquilens_evidence/trade_safety.py:1135-1151 | On accepted inputs with a decision other than unavailable, the refusal for want of a window happens exactly at an age limit. |
| TradeSafetyReceipts.WholeLifeTruth | src/liquilens_evidence/trade_safety.py:1347-1371 | If a receipt verifies and is not unavailable, the evaluator gives its decision at every instant from evaluation up to expiry. |
| TradeSafetyReceipts.RecordHashNamesReceipt | src/liquilens_evidence/trade_safety.py:1318-1323 | Two accepted receipts with one record hash are the same receipt, unless the digest collides on them. |
| TradeSafetyReceipts.OnlyTheSigningKeyVerifies | src/liquilens_evidence/trade_safety.py:1325-1345 | A verified receipt verifies under another key exactly when both give the same keyed digest; with and without a key never mix. |
| PolicyGuard.TighterIsNeverBetter | src/liquilens_evidence/trade_safety.py:846-989 | Adding products or hold regimes, lowering ages, lowering or adding caps never improves an outcome, on any order, evidence and clock. |
| PolicyGuard.NeverBetterExactly | src/liquilens_evidence/trade_safety.py:846-989 | Exactly when one policy never gives a better outcome than another: it is tighter; or it holds every regime, and then it asks for the same products at no greater ages, for every capped number the other asks for, and for dollars if the other does, while cap values and regimes no longer matter. |
| PolicyGuard.TighterIsExact | src/liquilens_evidence/trade_safety.py:846-989 | "Tighter" is exactly "never a better outcome" against every policy, for exactly the policies that leave some regime unheld or cap nothing; otherwise halving a cap is a counterexample. |
| PolicyGuard.AdmittedExactlyWhenTighter | integrations/trade-safety-gateway/src/trade_safety_gateway/policy_guard.py:438-520 | Admission succeeds exactly for valid, allow-listed policies that are tighter than the server configuration read as a policy and keep all three ages within it. |
| PolicyGuard.TurnedDownExactlyWhen | integrations/trade-safety-gateway/src/trade_safety_gateway/policy_guard.py:438-520 | A policy is turned down for the first of seventeen conditions that stands, and admitted exactly when none does. |
| PolicyGuard.ConfigOnlyNarrows | integrations/trade-safety-gateway/src/trade_safety_gateway/policy_guard.py:242-333 | A configuration the server starts with is tighter than the built-in envelope. |
| PolicyGuard.ConfigRefusedExactlyWhen | integrations/trade-safety-gateway/src/trade_safety_gateway/policy_guard.py:242-333 | A configuration is refused for the first of thirteen conditions that stands, with the built-in numbers written out, and the server starts exactly when none does. |
| PolicyGuard.AdmittedIsAtLeastAsSevere | integrations/trade-safety-gateway/src/trade_safety_gateway/policy_guard.py:438-505 | Every admitted policy is at least as severe as the configuration and as the built-in envelope on every input. |
| PolicyGuard.AdmittedStaysInsideHardEnvelope | integrations/trade-safety-gateway/src/trade_safety_gateway/policy_guard.py:52-63 | Every admitted policy caps notional at 100000, cost at 50 and spread at 20, holds STRESS and requires both core products. |
| UndertowContract.MeasurementBoundsEveryVenue | integrations/trade-safety-gateway/src/trade_safety_gateway/upstream_contracts.py:742-771 | The two published summary numbers of an accepted measurement bound every venue's cost and every pair's difference. |
| UndertowContract.MeasurementFitsBooks | integrations/trade-safety-gateway/src/trade_safety_gateway/upstream_contracts.py:700-737 | The whole size lies within the observed depth of all six venues, at a conversion price within half a percent of one. |
| UndertowContract.DollarCostsAreHonest | integrations/trade-safety-gateway/src/trade_safety_gateway/upstream_contracts.py:738-740 | Each dollar cost is the basis-point cost of the order's size, to the cent. |
| UndertowContract.ClocksBracketEveryBook | integrations/trade-safety-gateway/src/trade_safety_gateway/upstream_contracts.py:860-918 | All six books and the peg were observed within five minutes of each other, in the last two hours, and known before retrieval. |
| UndertowMeaning.AcceptedExactlyWhenReliable | integrations/trade-safety-gateway/src/trade_safety_gateway/upstream_contracts.py:774-936 | A context is accepted exactly when it is for this order and its rights are approved as a whole and for each of six venues, reviewed, in force when known and still when retrieved; every venue is covered, the peg and clocks hold, and costs are recomputed. |
| UndertowMeaning.ProjectedExactly | integrations/trade-safety-gateway/src/trade_safety_gateway/upstream_contracts.py:937-960 | What is taken over: the oldest book as time of the evidence, the worst venue's cost, the spread, and an expiry two hours later. |
| UndertowMeaning.RiskAcceptedExactlyWhenReliable | integrations/trade-safety-gateway/src/trade_safety_gateway/upstream_contracts.py:250-427 | A risk context is accepted exactly when its ages, sources and clocks hold, and its regime is taken over. |
| Gateway.Assess | integrations/trade-safety-gateway/src/trade_safety_gateway/app.py:1239-1433 | Nothing is contacted unless the policy is admitted, the measurement tool only for eligible orders; a receipt is given exactly when the request is admitted, still open after retrieval, and its inputs leave a window, and each failure has its own condition: whatever the upstreams answer, only a clock set back or evidence at its age limit prevents it. |
| Gateway.RequestAdmittedExactlyWhen | integrations/trade-safety-gateway/src/trade_safety_gateway/app.py:1183-1219 | A request is admitted exactly when it is valid, its policy admitted and its own, its time now and its institution slug well formed; each refusal has its own condition. |
| Gateway.EligibleExactlyWhen | integrations/trade-safety-gateway/src/trade_safety_gateway/app.py:1101-1127 | An order is eligible for the measurement exactly when it is an observed or paper sell of bitcoin, in dollars alone, of one of the four published sizes. |
| Gateway.UndertowSectionExactly | integrations/trade-safety-gateway/src/trade_safety_gateway/app.py:1012-1040 | The measurement is used exactly for an eligible order and a reliable answer, and then for what it measured; otherwise the section is missing. |
| Gateway.SeicheSectionExactly | integrations/trade-safety-gateway/src/trade_safety_gateway/app.py:984-1010 | The regime is used exactly when the answer is reliable. |
| Gateway.LiquiLensSectionExactly | integrations/trade-safety-gateway/src/trade_safety_gateway/app.py:1042-1098 | A filing is used exactly when the request names an institution and the latest period has ended. |
| Gateway.BitcoinMeans | integrations/trade-safety-gateway/src/trade_safety_gateway/app.py:1101-1127 | A symbol is bitcoin exactly when, white space and case aside, it is one of nine aliases. |
| Gateway.UpperMeans | integrations/trade-safety-gateway/src/trade_safety_gateway/app.py:1101-1127 | Which characters become a letter when upper-cased: the two cases of it, and the dotless i and long s. |
| Basics.SpaceMeans | integrations/trade-safety-gateway/src/trade_safety_gateway/app.py:1101-1127 | The white space around a symbol is that of Python's strip, character by character. |
| Gateway.ContactsExactly | integrations/trade-safety-gateway/src/trade_safety_gateway/app.py:1251-1283 | The risk producer is always asked, the measurement exactly for eligible orders, filings exactly for named institutions. |
| Gateway.ReceiptsAreBrief | integrations/trade-safety-gateway/src/trade_safety_gateway/app.py:1390-1433 | A receipt of the gateway carries its own name and no key, is for this request and policy, and lives a minute at the most. |
| Gateway.AssessInputsAreAccepted | integrations/trade-safety-gateway/src/trade_safety_gateway/app.py:883-981 | Every section built, projected, unavailable or not applicable, passes the issuer's evidence validation. |
| Gateway.PassMeaning | integrations/trade-safety-gateway/src/trade_safety_gateway/app.py:1101-1127 | A PASS means a plain bitcoin sell in dollars at a published size up to 100000 on a reliable measurement, approved for all six venues, with every venue within the cost cap (at most 50), every pair within the spread cap plus 1e-12, and a reliable regime the policy does not hold. |
| Gateway.ReceiptPassMeaning | integrations/trade-safety-gateway/src/trade_safety_gateway/app.py:1239-1433 | The same, read off the receipt that an assessment hands out: its own request, policy and evaluation time. |
| GatewayPass.PassIsPossible | integrations/trade-safety-gateway/src/trade_safety_gateway/app.py:1239-1433 | For a concrete order, policy and pair of contexts, under the built-in envelope, the decision is PASS: the statement above is not about nothing. |
| ReplayGuard.InMemoryReceiptConsumer.Consume | src/liquilens_evidence/order_guard.py:176-198 | The pruning loop and the claim have exactly the specified effect. |
| ReplayGuard.AnswersFromHistory | src/liquilens_evidence/order_guard.py:176-198 | The forgetful guard answers from the full history of calls: no later reading before, unexpired, no unexpired claim of the id, room among the unexpired claims. |
| ReplayGuard.StaysWithinCapacity | src/liquilens_evidence/order_guard.py:195-196 | It never holds more than the configured number of entries. |
| ReplayGuard.SecondClaimNeedsLaterExpiry | src/liquilens_evidence/order_guard.py:190-198 | Two grants of one id need a reading at which the first had expired and the second had not. |
| ReplayGuard.ReplaySafeExactlyWhenExpiryNeverGrows | src/liquilens_evidence/order_guard.py:190-198 | No clock makes an id be granted twice exactly when no id ever comes back with a later expiry. |
| ReplayGuard.GrowingExpiryReplays | src/liquilens_evidence/order_guard.py:190-198 | The concrete calls that are granted twice when expiry grows. |
| OrderGuard.AuthorizedExactlyWhen | src/liquilens_evidence/order_guard.py:353-426 | An order is let through exactly when the receipt verifies now, is for this very paper request in this lane, and says pass; the other checks follow. |
| OrderGuard.BlockedExactlyWhen | src/liquilens_evidence/order_guard.py:353-426 | Each way of stopping an order has its own condition, and the first that holds is the answer. |
| OrderGuard.SubmittedExactlyWhen | src/liquilens_evidence/order_guard.py:448-481 | An order goes to the broker exactly when both clocks can be read, nothing blocks it and the claim is granted; refused and unavailable claims are told apart, and a blocked order claims nothing. |
| OrderGuard.PaperOrderGateway.Submit | src/liquilens_evidence/order_guard.py:448-481 | One submission: clock, verification, claim, then the broker, which is reached exactly when nothing blocked. |
| OrderGuard.ReceiptReachesBrokerAtMostOnce | src/liquilens_evidence/order_guard.py:526-566 | In any run of one gateway, under any clocks, one receipt takes at most one order to the broker. |
| OrderGuard.OneIdTwiceIsPrefixCollision | src/liquilens_evidence/order_guard.py:526-566 | Two orders reach the broker on one identity only if two different records have digests with the same first 24 digits, to which identities are truncated. |
| OrderGuardRuns.IssuedPassReaches | src/liquilens_evidence/order_guard.py:448-481 | A PASS the issuer made for this lane takes its order to the broker on its first claim, at every instant of its window. |
| OrderGuardRuns.SecondPassReachesExactlyWhen | src/liquilens_evidence/order_guard.py:176-198 | A second PASS reaches the broker behind a first exactly when the first has expired by then, or its identity is another one and the guard has room. |
| OrderGuardRuns.AnOrderReaches | src/liquilens_evidence/order_guard.py:526-566 | Whatever the digests, some concrete order reaches the broker: the statements about runs are not about nothing. |
| OrderGuardRuns.OneIdentityReachesTwice | src/liquilens_evidence/order_guard.py:526-566 | Under digests that collide two orders do reach the broker on one identity, a minute apart. |
| OrderGuard.EveryBrokerCallIsAuthorized | src/liquilens_evidence/order_guard.py:553-566 | Every order that reaches the broker is the receipt's own paper request in this lane, on evidence about that request, under a trustworthy receipt; it passes the pinned policy at that moment and was claimed before expiry. |
| CanonicalText.ParsesPrinted | src/liquilens_evidence/canonical.py:55-64 | A printed value is read back from any text that starts with it, so nesting, escapes and delimiters are never ambiguous. |
| CanonicalText.Utf8RoundTrip | src/liquilens_evidence/canonical.py:59-64 | The UTF-8 bytes decode to the text. |
| CanonicalTree.DecodesCanonicalBytes | src/liquilens_evidence/canonical.py:20-64 | A decoder recovers the normalised typed tree from the canonical bytes. |
| CanonicalTree.BytesEqualExactlyWhenAgreeing | src/liquilens_evidence/canonical.py:20-64 | Two hashable values have equal bytes exactly when they agree up to key order, list or tuple, enum or datetime text, and signed zero. |
| CanonicalTree.SortedIsUnique | src/liquilens_evidence/canonical.py:46-49 | There is only one way to put a set of named members in order. |
| CanonicalHash.ConvertKeys | src/liquilens_evidence/canonical.py:40-45 | The conversion loop refuses exactly a repeated key text and otherwise renames every entry. |
| CanonicalHash.HashTree | src/liquilens_evidence/canonical.py:20-52 | The recursive conversion, sorting keys before converting values, produces exactly the typed tree, or raises exactly where there is none. |
| CanonicalHash.TreeMeetsReference | src/liquilens_evidence/canonical.py:20-52 | The nested arrays that the conversion gives print as the one text written out for the value, and there are none exactly where that text does not exist. |
| CanonicalHash.CanonicalHashBytes | src/liquilens_evidence/canonical.py:55-64 | The bytes are the UTF-8 of the one text that the value has, as the rows below write it out, and there are none exactly when it has none. |
| CanonicalReference.MeetsReference | src/liquilens_evidence/canonical.py:20-64 | Every value has exactly one text, written out form by form as literal JSON (tags, numerals, hexadecimal digits, each escape), or none; members stand in order of their keys. |
| CanonicalReference.LessMeans | src/liquilens_evidence/canonical.py:46-49 | The order of keys on the strings alone: a proper prefix first, else the smaller character at the first difference. |
| CanonicalText.Utf8Layout | src/liquilens_evidence/canonical.py:59-64 | Every code point is encoded in the layout of RFC 3629, section 3. |
| TokenBucket.AdmissionsAreBounded | integrations/trade-safety-gateway/src/trade_safety_gateway/admission.py:82-97 | In every run, under every raw clock, admissions with effective time in a window number at most the burst plus what accrues in it. |
| TokenBucket.AdmitsExactlyWhenEveryWindowHasRoom | integrations/trade-safety-gateway/src/trade_safety_gateway/admission.py:82-97 | With room in flight, a call is refused exactly when admitting it would overfill some window ending now. |
| TokenBucket.AnsweredExactlyWhen | integrations/trade-safety-gateway/src/trade_safety_gateway/admission.py:82-103 | A call is turned down for capacity, for its rate, or admitted, and a release refused or done, each exactly under its own condition on the history. |
| TokenBucket.EffectiveTimeIsTheLatest | integrations/trade-safety-gateway/src/trade_safety_gateway/admission.py:82-86 | The effective time of a call is the latest reading so far. |
| TokenBucket.InFlightIsAccounted | integrations/trade-safety-gateway/src/trade_safety_gateway/admission.py:91-103 | In-flight equals admissions minus releases and stays within its maximum; tokens stay between zero and the burst. |
| TokenBucket.PatientCallerIsAdmitted | integrations/trade-safety-gateway/src/trade_safety_gateway/admission.py:82-97 | A call at least one over the rate after the previous one, with room in flight, succeeds. |
| TokenBucket.RequestAdmission.Acquire | integrations/trade-safety-gateway/src/trade_safety_gateway/admission.py:82-97 | The critical section has exactly the specified effect. |
| TokenBucket.RequestAdmission.Release | integrations/trade-safety-gateway/src/trade_safety_gateway/admission.py:99-103 | A release without acquisition is refused; otherwise one slot is freed. |
| SlidingWindow.AdmitsExactlyBelowLimit | integrations/trading-copilot/src/liquilens_trading_copilot/agent_host.py:176-185 | Under a nondecreasing clock a request is admitted exactly when fewer than the limit were admitted in the preceding minute. |
| SlidingWindow.NoMinuteExceedsLimit | integrations/trading-copilot/src/liquilens_trading_copilot/agent_host.py:176-185 | No interval of one minute ever contains more admissions than the limit, although old entries are discarded. |
| SlidingWindow.Boundary.Admit | integrations/trading-copilot/src/liquilens_trading_copilot/agent_host.py:178-185 | The popping loop and the append have exactly the specified effect. |
| EvidenceCarrier.EvaluateDisclosure | src/liquilens_evidence/evidence_carrier.py:466-524 | The evaluator, tightening step by step, gives the strictest of the independent findings, and their reasons in order. |
| EvidenceMeaning.ReasonsAreTheCatalogue | src/liquilens_evidence/evidence_carrier.py:466-524 | The reasons given are those of one fixed catalogue whose own condition holds, in its order. |
| EvidenceMeaning.ReportedExactlyWhen | src/liquilens_evidence/evidence_carrier.py:466-524 | Every reason code is given exactly when its condition on the metadata and clock holds, each rights status with its own code. |
| EvidenceMeaning.DispositionExactlyWhen | src/liquilens_evidence/evidence_carrier.py:466-524 | Rejected, in full, or by reference: each with its own condition on the carrier, the clock and the policy. |
| EvidenceCarrier.FullExactlyWhenNoReason | src/liquilens_evidence/evidence_carrier.py:466-524 | For every valid policy disclosure is full exactly when every condition holds, and exactly when there is no reason against it. |
| EvidenceCarrier.DisclosureNeverLoosens | src/liquilens_evidence/evidence_carrier.py:478-524 | A fixed carrier is rejected before its as-of time and never loosens afterwards. |
| EvidenceCarrier.StrictRejectionShowsInReasons | src/liquilens_evidence/evidence_carrier.py:478-488 | Under the strict policy a rejection is recognisable from the reasons alone. |
| EvidenceCarrier.ReasonsAreDistinctCodes | src/liquilens_evidence/evidence_carrier.py:522-524 | Reasons never repeat, so removing duplicates removes nothing. |
| EvidenceCarrier.CheckSources | src/liquilens_evidence/evidence_carrier.py:354-386 | The source loop accepts exactly unique ids retrieved between event and knowledge. |
| EvidenceCarrier.IssueCarrier | src/liquilens_evidence/evidence_carrier.py:424-463 | A carrier with valid metadata is issued and verifies at every clock under every policy. |
| EvidenceMeaning.VerifiedExactlyWhenGenuine | src/liquilens_evidence/evidence_carrier.py:527-575 | A carrier verifies exactly when its clocks, sources, rights and authority are well stated and its identity is the digest of its own body. |
| EvidenceMeaning.ViewExactly | src/liquilens_evidence/evidence_carrier.py:131-155 | What a verified carrier shows: nothing, itself, or its metadata without the payload. |
| EvidenceCarrier.PayloadWindow | src/liquilens_evidence/evidence_carrier.py:131-155 | A payload is shown only from the as-of time until expiry, and never reappears. |
| FleetBrief.IssueBrief | src/liquilens_evidence/fleet_brief.py:264-318 | Issuing from any subset of carriers succeeds exactly when they verify, sit under their own producer and are pairwise distinct; the brief is accepted at its clock and at no other. |
| FleetBrief.VerifyBrief | src/liquilens_evidence/fleet_brief.py:507-569 | The verifier accepts exactly the briefs that meet its declarative reading. |
| FleetBrief.BuiltSectionIsOk | src/liquilens_evidence/fleet_brief.py:224-261 | A section built from any valid carrier at any clock is one the independent validator accepts. |
| EvidenceMeaning.SectionExactly | src/liquilens_evidence/fleet_brief.py:224-261 | The section that each supplied carrier gets, field by field, or which error. |
| EvidenceMeaning.IssuableExactlyWhen | src/liquilens_evidence/fleet_brief.py:264-318 | A brief can be issued exactly from genuine carriers, each under its own producer, no two with an id or a hash in common. |
| EvidenceMeaning.BriefAcceptedExactlyWhen | src/liquilens_evidence/fleet_brief.py:414-569 | A brief is accepted exactly when it is of this clock, hashes to its identity, widens no authority, and holds one presentable section per producer, written out state by state. |
| FleetBrief.NoClashIsPairwise | src/liquilens_evidence/fleet_brief.py:539-551 | Checking each identity against those before it compares every pair. |
| FleetBrief.AcceptedIdentitiesAreDistinct | src/liquilens_evidence/fleet_brief.py:539-551 | In an accepted brief carrier ids and hashes are pairwise distinct. |
| FleetBrief.AcceptedSectionsDiscloseWhatIsAllowed | src/liquilens_evidence/fleet_brief.py:414-504 | In an accepted brief a payload appears only where the carrier re-hashes and is full at that clock, metadata only where allowed, and rejected sections show nothing. |
| HostBackup.HostBackup.Recover | integrations/trading-copilot/deploy/backup_agent_host.py:468-480 | Recovery, step by step with any fault, has exactly the specified effect. |
| HostBackup.HostBackup.Snapshot | integrations/trading-copilot/deploy/backup_agent_host.py:712-740 | Quiesce, capture and the finally clause likewise. |
| HostBackup.HostBackup.Backup | integrations/trading-copilot/deploy/backup_agent_host.py:917-1080 | A whole backup with its cleanup likewise. |
| HostBackupSteps.ResumeExactly | integrations/trading-copilot/deploy/backup_agent_host.py:400-411 | A resume goes through, fails or crashes, and leaves which machine, exactly by the guards, the host and the fault of each step. |
| HostBackupSteps.RecoverExactly | integrations/trading-copilot/deploy/backup_agent_host.py:468-480 | Recovery likewise. |
| HostBackupSteps.QuiesceExactly | integrations/trading-copilot/deploy/backup_agent_host.py:727-740 | Plaintext is captured exactly with the host seen inactive, under the operator lock, with the recorded guards; the lock is always released. |
| HostBackupSteps.SnapshotExactly | integrations/trading-copilot/deploy/backup_agent_host.py:712-740 | A snapshot likewise: the intent is durable before anything else, and the host is resumed unless the quiesce crashed. |
| HostBackupSteps.SnapshotOverUnfinished | integrations/trading-copilot/deploy/backup_agent_host.py:712-716 | An unfinished quiesce is resumed first, and stands in the way if it cannot be. |
| HostBackupSteps.BackupExactly | integrations/trading-copilot/deploy/backup_agent_host.py:917-1080 | A whole backup likewise, with its last step only for its own resumed run. |
| HostBackupSteps.CompletedBackup | integrations/trading-copilot/deploy/backup_agent_host.py:917-1080 | A backup that goes through leaves the host as recovery left it, its intent complete, its plaintext gone, and exactly one capture logged. |
| HostBackup.CompletedRecoverRestoresTheHost | integrations/trading-copilot/deploy/backup_agent_host.py:400-480 | After any number of attempts interrupted anywhere, a completed recover leaves the host as it was at first and no captured plaintext; no inactive host was ever started, and every capture ran quiet and locked. |
| HostBackup.FaultlessRecoverCompletes | integrations/trading-copilot/deploy/backup_agent_host.py:400-411 | Without a fault a recover completes exactly when no guard changed since an unfinished quiesce. |
| HostBackup.RecordedStateIsTheFirstState | integrations/trading-copilot/deploy/backup_agent_host.py:712-726 | A host left stopped by an interrupted run is never recorded as previously inactive. |
| HostBackupProcesses.BackupIsItsMoves | integrations/trading-copilot/deploy/backup_agent_host.py:917-1080 | One backup on its own is its locked sections and the two halves of its unlocked last step, one after another. |
| HostBackupProcesses.HostComesHome | integrations/trading-copilot/deploy/backup_agent_host.py:334-480 | However the sections of any number of processes follow one another, if no backup completes its intent over a quiesce that another has begun, a completed recover leaves the host in its first state, no inactive host was started, and every capture ran quiet and locked. |
| HostBackupProcesses.OverwriteDecides | integrations/trading-copilot/deploy/backup_agent_host.py:1064-1070 | After such a completion every later recover brings the host home exactly when the other process had not stopped it yet. |
| HostBackupProcesses.HostStaysStopped | integrations/trading-copilot/deploy/backup_agent_host.py:1064-1070 | The concrete moves of two processes after which a completed recover leaves a running host stopped. |
| HostBackupProcesses.NamedExactlyUnlessDisowned | integrations/trading-copilot/deploy/backup_agent_host.py:712-726 | A move keeps all captured plaintext named by an uncompleted intent exactly when it writes no intent over one that names the plaintext of another run. |
| HostBackupProcesses.NoPlaintextIsLeft | integrations/trading-copilot/deploy/backup_agent_host.py:468-480 | If no move does that, a completed recover leaves no captured plaintext, whatever the interleaving. |
| HostBackupProcesses.OrphansStay | integrations/trading-copilot/deploy/backup_agent_host.py:468-480 | Plaintext that no intent names any more is never removed, by no recover, snapshot or backup of another run. |
| HostBackupProcesses.SecondSnapshotDisowns | integrations/trading-copilot/deploy/backup_agent_host.py:712-726 | The concrete second snapshot that disowns the plaintext of the first. |
| Scorecard.MakeReport | integrations/trade-safety-gateway/src/trade_safety_gateway/traction_report.py:122-215 | The report is a function of the set of covered events, plus the count of repeats; refusals come in the specified order. |
| ScorecardMeaning.AnswerExactlyWhen | integrations/trade-safety-gateway/src/trade_safety_gateway/traction_report.py:122-215 | Which logs are refused and in which order, what counts as a duplicate, and which epoch is reported. |
| ScorecardMeaning.AssessmentsMean | integrations/trade-safety-gateway/src/trade_safety_gateway/traction_report.py:165-170 | Each outcome count is the number of unattributed assessments in the window with that outcome, and no zero is listed. |
| ScorecardMeaning.UsefulMeans | integrations/trade-safety-gateway/src/trade_safety_gateway/traction_report.py:205 | Useful assessments are those that passed, were limited or held. |
| ScorecardMeaning.OperationsMean | integrations/trade-safety-gateway/src/trade_safety_gateway/traction_report.py:163-164 | Each event count is the number of unattributed events of that name in the window. |
| ScorecardMeaning.ExcludedMean | integrations/trade-safety-gateway/src/trade_safety_gateway/traction_report.py:158-162 | Each excluded count is the number of other events in the window of that class. |
| ScorecardMeaning.InstallationsMean | integrations/trade-safety-gateway/src/trade_safety_gateway/traction_report.py:171-178 | Anonymous answers and active installations are counted from answered assessments in the window. |
| ScorecardMeaning.CohortsMean | integrations/trade-safety-gateway/src/trade_safety_gateway/traction_report.py:179-203 | A cohort counts the installations whose first answered day began in the window with the return day over, and those that came back on exactly that day. |
| Scorecard.CollectUnique | integrations/trade-safety-gateway/src/trade_safety_gateway/traction_report.py:131-148 | The first pass keeps one record per event and finds a conflict exactly when there is one. |
| Scorecard.CountAll | integrations/trade-safety-gateway/src/trade_safety_gateway/traction_report.py:149-178 | The counting loop computes the tallies, day sets and installations of the set of events. |
| Scorecard.Retain | integrations/trade-safety-gateway/src/trade_safety_gateway/traction_report.py:179-199 | The retention loop counts exactly the eligible and the returned installations. |
| Scorecard.OrderDoesNotMatter | integrations/trade-safety-gateway/src/trade_safety_gateway/traction_report.py:122-215 | Every permutation of a log gets the same report or the same refusal. |
| Scorecard.RepeatsOnlyCountAsDuplicates | integrations/trade-safety-gateway/src/trade_safety_gateway/traction_report.py:139-143 | Repeating records changes only the duplicate count, by exactly the repeats. |
| Scorecard.WindowIsPartitioned | integrations/trade-safety-gateway/src/trade_safety_gateway/traction_report.py:158-167 | In-window events equal unattributed plus excluded counts. |
| Scorecard.ReturnedNeverExceedsEligible | integrations/trade-safety-gateway/src/trade_safety_gateway/traction_report.py:179-199 | Returned never exceeds eligible, and the seven-day cohort never exceeds the one-day cohort. |
| AccountLimits.GuardMeaning | integrations/trading-copilot/src/liquilens_trading_copilot/agent_service.py:77-110 | A proposal is allowed exactly when the account is quiet, the day's loss is a small enough part of its starting equity, the size is in range, and filling it leaves no debt, short or over-exposure. |
| AccountLimits.RefusedExactlyWhen | integrations/trading-copilot/src/liquilens_trading_copilot/agent_service.py:77-110 | A proposal is refused for the first of ten conditions that stands, each written out on the account, the limits and the proposal. |
| Reservations.CycleStore.Reserve | integrations/trading-copilot/src/liquilens_trading_copilot/state.py:88-127 | The guarded insert has exactly the specified effect, with the budget counted over the table and an unknown direction charged like an entry. |
| Reservations.ReservedExactlyWhen | integrations/trading-copilot/src/liquilens_trading_copilot/state.py:88-168 | A reservation is made exactly for an intent and request not reserved before, while the day's count, and for anything but an exit the count of entries, leaves room; it is appended and nothing else changes. |
| Reservations.ReserveKeepsSound | integrations/trading-copilot/src/liquilens_trading_copilot/state.py:88-168 | Intents and requests are reserved once, no day exceeds its budget, and entries leave exits their share. |
| PaperAgentService.AgentService.RunOperation | integrations/trading-copilot/src/liquilens_trading_copilot/agent_service.py:187-192 | A call is accepted exactly when the service is open and no operation is owned. |
| PaperAgentService.AgentService.RecordAssessment | integrations/trading-copilot/src/liquilens_trading_copilot/agent_service.py:394-415 | One row per intent and per request hash, or none, for a verified receipt of the host's own request under the pinned policy. |
| PaperAgentService.AgentService.CheckAndReserve | integrations/trading-copilot/src/liquilens_trading_copilot/agent_service.py:442-475 | Account limits, time of the check, enable check, reservation and the start of the worker have exactly the specified effect. |
| PaperAgentService.AgentService.EnterLane | integrations/alpaca-paper/src/liquilens_alpaca_paper/agent_tools.py:268-269 | A worker gets the lock of the tools exactly when no other has it, and is answered at once otherwise. |
| PaperAgentService.AgentService.BeginIfEnabled | integrations/alpaca-paper/src/liquilens_alpaca_paper/agent_tools.py:94-103 | The last enable check decides whether the attempt is begun. |
| PaperAgentService.AgentService.FinishOperation | integrations/trading-copilot/src/liquilens_trading_copilot/agent_service.py:214-216 | The finally clause, however the operation ended and whether or not its caller still waits. |
| PaperAgentService.AgentService.CancelOperation | integrations/trading-copilot/src/liquilens_trading_copilot/agent_service.py:194-227 | The same finally clause when the operation itself is cancelled, with its worker going on unless it had not begun; an operation cancelled before its first step never reaches the clause and leaves the service busy. |
| PaperAgentAnswers.AskedExactlyWhen | integrations/trading-copilot/src/liquilens_trading_copilot/agent_service.py:328-393 | The evidence source is asked exactly for an intent without a record while the table has room, for a 90-second market order in which only side and size are the agent's. |
| PaperAgentAnswers.TakenExactlyWhen | integrations/trading-copilot/src/liquilens_trading_copilot/agent_service.py:187-192 | A request is taken exactly when the service is open and idle; only then does anything change. |
| PaperAgentAnswers.CancelledExactly | integrations/trading-copilot/src/liquilens_trading_copilot/agent_service.py:194-227 | What cancelling an operation changes: before its first step the lane stays taken, afterwards it is free and the account check forgotten. |
| PaperAgentAnswers.FinishedExactly | integrations/trading-copilot/src/liquilens_trading_copilot/agent_service.py:194-216 | What the finally clause changes, and that it waits for the worker. |
| PaperAgentAnswers.RecordedExactlyWhen | integrations/trading-copilot/src/liquilens_trading_copilot/agent_service.py:394-415 | An answer is recorded exactly when it verifies now, is for this request and the pinned policy, and neither intent nor hash is taken. |
| PaperAgentAnswers.SubmissionBegunExactlyWhen | integrations/trading-copilot/src/liquilens_trading_copilot/agent_service.py:417-442 | A portfolio is read exactly for a known request with no record and no reservation, while execution is on and nothing is open, under a receipt that verifies now and passed; one with a record or reservation is only looked up. |
| PaperAgentAnswers.HandedOverExactlyWhen | integrations/trading-copilot/src/liquilens_trading_copilot/agent_service.py:442-475 | The submission is handed to the tools exactly when the account allows it, execution is on within ten seconds of that check, and the reservation is made. |
| PaperAgentAnswers.LookUpBegunExactlyWhen | integrations/trading-copilot/src/liquilens_trading_copilot/agent_service.py:229-262 | A status or reconciliation is handed to the tools exactly for a known assessment. |
| PaperAgentAnswers.ObservedExactlyWhen | integrations/trading-copilot/src/liquilens_trading_copilot/agent_service.py:262-283 | A terminal observation is noted exactly after a reconciliation of a reserved request, of the order in the tool's answer. |
| PaperAgentAnswers.EnteredExactlyWhen | integrations/alpaca-paper/src/liquilens_alpaca_paper/agent_tools.py:268-269 | A worker enters exactly when the lock is free, and is otherwise gone at once with no answer about an order. |
| PaperAgentAnswers.DispatchedExactly | integrations/alpaca-paper/src/liquilens_alpaca_paper/agent_tools.py:268-346 | Inside the lock a submission or a reconciliation is put to the lane, with the enable check of that moment; a plain lookup is not. |
| PaperAgentAnswers.AuthorizedExactlyWhen | src/liquilens_evidence/order_guard.py:353-426 | The order guard is asked once, after the dispatch of a submission and before its receipt is claimed; what it turns down goes no further. |
| PaperAgentAnswers.ClearedExactlyWhen | integrations/alpaca-paper/src/liquilens_alpaca_paper/agent_tools.py:94-103 | After the last enable check a worker goes on exactly when the journal began the attempt. |
| PaperAgentAnswers.LeftExactly | integrations/alpaca-paper/src/liquilens_alpaca_paper/agent_tools.py:268-346 | Leaving releases the lock and drops the call; a tool that raised says nothing of an order. |
| PaperAgentAnswers.ActsExactlyWhen | integrations/alpaca-paper/src/liquilens_alpaca_paper/agent_tools.py:305-346 | Inside the lock a worker acts on its own call only, and claims a receipt only once the guard has passed. |
| PaperAgentAnswers.CrashLoses | integrations/trading-copilot/src/liquilens_trading_copilot/agent_service.py:113-150 | A crash loses operations, workers, the account check, the lock, calls and claims, and no table. |
| PaperAgentService.ServiceRunsTheLane | integrations/alpaca-paper/src/liquilens_alpaca_paper/agent_tools.py:305-346 | Every run of the service drives the journal and the broker as some run of the serialized tool lane does, so everything proved of that lane and of the journal protocol holds here. |
| PaperAgentTools.RunKeeps | integrations/trading-copilot/src/liquilens_trading_copilot/agent_service.py:113-475 | Every event, by a caller, an operation or a worker, keeps the invariant: while a reservation is pending, no account check but its own can enable a broker call, not even after its operation is gone. |
| PaperAgentGuarantees.EverySubmissionIsGuarded | integrations/trading-copilot/src/liquilens_trading_copilot/agent_service.py:417-475 | Every broker call in the journal's log, in every run with any disconnects, cancellations and crashes, is the host's own request for the proposal its intent is bound to, allowed on a portfolio read at most ten seconds before the last check, reserved, and let through by the order guard; no request and no receipt is sent twice. |
| PaperAgentGuarantees.LaneIsSerial | integrations/trading-copilot/src/liquilens_trading_copilot/agent_service.py:187-227 | In every such run at most one operation is owned, and the service is busy while it is, one worker is past the tools' lock and only it has a journal or broker call in flight, at most one reservation is pending, at most one journal row is unresolved, and budgets hold. |
| PaperAgentGuarantees.BusyExactlyWhen | integrations/trading-copilot/src/liquilens_trading_copilot/agent_service.py:187-227 | The service is busy exactly while an operation is owned or, until a restart, after one was cancelled before its first step. |
| PaperAgentGuarantees.WorkersNeverOverlap | integrations/trading-copilot/src/liquilens_trading_copilot/agent_service.py:113-227 | Whoever disconnects, there is never more than one worker, and until it is done its operation keeps the open service busy; only cancelling an operation of an open service under its running worker is excluded. |
| PaperAgentGuarantees.CancellationDecides | integrations/trading-copilot/src/liquilens_trading_copilot/agent_service.py:194-232 | Cancelling an owned operation whose worker goes on lets a second worker start beside it, with no further cancellation, exactly when the service is still open. |
| PaperAgentGuarantees.IntentIsBoundForLife | integrations/trading-copilot/src/liquilens_trading_copilot/agent_service.py:328-415 | An intent keeps the proposal, the request and the receipt it was first given, in every continuation. |
| PaperAgentOrders.EveryOrderPassesItsPolicy | integrations/trading-copilot/src/liquilens_trading_copilot/agent_service.py:328-475 | With the receipt verifier and the order guard wired in, every order sent has the side and size of its proposal and nothing else of the agent's, and its receipt's policy, the pinned one, passes it at the moment of the guard's check. |
| PaperAgentOrders.SendableIsSent | integrations/trading-copilot/src/liquilens_trading_copilot/agent_service.py:417-475 | A run of thirteen events that sends a given order: what the theorems say of broker calls is not about nothing. |
| PaperAgentOrders.AnOrderIsSent | integrations/trading-copilot/src/liquilens_trading_copilot/agent_service.py:417-475 | Whatever the digests, a concrete wired host can send an order. |
| PaperAgentOrders.WorkersCanOverlap | integrations/trading-copilot/src/liquilens_trading_copilot/agent_service.py:194-227 | The concrete run in which the operation is cancelled under its worker, after which another worker can start beside it. |

## Left out

- SubmissionProtocol.AtMostOneBrokerCall: speaks of calls made through the journal; the HTTP client's own retries below `submit_order` are not modelled.
- PaperAdapter.Gateway.Submit: starts from a verified receipt; account binding and the translation to an Alpaca order request (`_order_request`) are not modelled, and whether the account was confirmed is a parameter of `Reconcile`.
- SubmissionProtocol.RunKeeps: reading the in-memory claim and its transaction are one step, where the code reads just before taking the lock (`SubmissionOwnership.BeginUsesClaimAsRead` and `MarkUsesClaimAsRead` cover the two readings); the ordering and limit of `recovery_candidates` and the text of errors are not modelled; only whether any unresolved row exists matters to the lane.
- TradeSafetyReceipts.Issue: the 1 MB artifact limit, the summary sentence of a decision, and free-text fields (limitations, source URLs, extensions) are not modelled.
- UndertowContract.MeasurementBoundsEveryVenue: arithmetic is over reals, so the tolerances are exact where the program's are floating-point.
- Gateway.Assess: transport, MCP framing, source and ledger proofs, authority flags and fixed text of the native contexts enter as one flag that they hold; upper-casing is modelled for the characters that can produce an alias.
- Gateway.PassMeaning: the paid route, telemetry and HTTP surface around `assess` are not modelled.
- OrderGuard.ReceiptReachesBrokerAtMostOnce: the asynchronous twins of the gateway and the consumer have the same logic under their own lock and are not repeated.
- CanonicalHash.HashTree: Python's limit on the digits of an integer turned into text and its recursion limit, beyond which the conversion raises, are not modelled.
- CanonicalTree.BytesEqualExactlyWhenAgreeing: mapping keys that are floats or other objects, and strings with lone surrogates (which the encoder refuses), are not modelled; a datetime enters as its UTC text.
- TokenBucket.AdmissionsAreBounded: time and tokens are reals.
- SlidingWindow.AdmitsExactlyBelowLimit: needs the nondecreasing readings that a monotonic clock gives.
- FleetBrief.IssueBrief: size limits and unknown producer names are not modelled; the carriers mapping is a record with one optional carrier per producer.
- EvidenceCarrier.IssueCarrier: text-shape checks of producer, subject, claim and rights fields are not modelled; the FDC3, CloudEvents, OpenTelemetry, OpenLineage, JSON-LD, Arrow and CSL projections would only add easy members.
- HostBackup.CompletedRecoverRestoresTheHost: its attempts follow one another; `HostBackupProcesses` is about processes at the same time. Both assume that nothing but this tool starts or stops the host; guard files may change between sections of the tool, and a change during one is a fault of its guard check. What is captured, encrypted, uploaded and restored is one step each.
- HostBackupProcesses.HostComesHome: each section under the tool's locks, and each half of the unlocked last step, is a single move; a fault in a move ends it there.
- Scorecard.MakeReport: starts from records that passed `validate`; line parsing and the emitter's vocabulary are not modelled.
- PaperAgentGuarantees.EverySubmissionIsGuarded: evidence retrieval and the checks of the scoped evidence profile enter as event parameters; the account binding check and the translation to an Alpaca order request are not modelled.
- PaperAgentGuarantees.LaneIsSerial: configuration is fixed for a run, and one process at a time owns the state directory, as the operator lock ensures; audit and outcome records are not modelled.
- PaperAgentOrders.EveryOrderPassesItsPolicy: the broker is the protocol's; which order data the adapter sends for a request is not modelled.
- `parse_env` and the other environment readers of the gateway, the x402 paid route, live trading, the strategy and its market data, and release tooling: transport, I/O or separate programs.
