# Atlas control plane: verified model

A Dafny model of the stateful parts of the Atlas agent-payments control plane, with proofs of what
those parts keep over whole runs. `dafny verify dfyconfig.toml` checks everything.

| file | what it models |
|---|---|
| `TelemetryRemediation.dfy` | how owner, follow-up, follow-through and accountability are derived from a truncated report listing |
| `RemediationJournal.dfy` | the append-only remediation protocol that reads itself through that listing |
| `OwnershipSamples.dfy` | breach, recovery and trend analysis of telemetry samples |
| `OperatorCases.dfy` | reconciling operator cases with requests; operator actions; sticky resolutions |
| `IncidentTriggers.dfy` | reconciling incident triggers with alerts; retention; audit trails |
| `AtlasCsv.dfy` | the CSV writer against a reader following section 2 of RFC 4180 |
| `IdentitySessions.dfy` | sessions, identity links and provisioned assignments |
| `SupportAccess.dfy` | support grants, independent review, activation, review campaigns |
| `BuyerPolicy.dfy`, `SpendLifecycle.dfy` | policy check, idempotent creation, approval, payment, receipt, fulfilment, pause |
| `OperatorOutlook.dfy` | operator cases and spend requests together: which cases reachable requests can get |
| `SecretRotation.dfy` | the rotation manifest validator and its producer |
| `Basics.dfy`, `Labels.dfy`, `Texts.dfy` | shared datatypes, colon-joined keys, trimming and lower-casing |

## How it is built

Each workflow has its tables as values, and each exported operation as one atomic step on them,
total: a refused operation is a step too, and leaves behind what the source leaves behind (time that
has passed, an expiry mark, nothing after a rolled-back transaction). A run is any sequence of
events. Time is passed in and moves strictly forward. Beside the step functions stand classes whose
methods update the same tables in place, with the source's loops, and are proved to do the same.

Choices a reader should know:

- Rows are known by their unique columns or by creation order instead of generated ids.
- Reports with the same timestamp keep their order of writing when listed; retention deletes the
  oldest reports first. Each status evaluation may see different telemetry, even within one step.
- Retention in the remediation protocol may run inside a step or by itself, at any extent.
- The decision to retry a payment is a parameter wherever a result does not depend on it; the
  source's rule (failed or voided) is `RetryEligible`.
- Incident sync takes alerts with distinct ids: the alert builder writes each id at most once.
- What a step reads of the world outside is part of the event: whether a runtime snapshot is published,
  a payment rail accepts, a grant's target is found, or its provider mode fits the environment.
- Pausing and releasing are allowed at any time, a superset of what the operator actions allow.

## What the proofs say about the code

Four behaviours differ from what the code or its documentation suggests. The model follows the code.

- Closing a remediation is refused while any earlier closure is among the newest twelve reports, even
  when ownership has been taken anew since (`NewOwnerCannotClose`). The detail text promises ownership
  "until an operator records explicit closure". `ClosersAreExactly` says exactly who can close when; it
  also takes a published API runtime snapshot, which the incident sync of a closure demands.
- The API accepts a submitted `ESCALATED` action without any check on the kind of action. What
  the window decides is right for runs with at most nine of them under one ownership action, and nine is the exact
  limit: ten can hide the owner from every later decision (`SubmittedEscalationsHideTheOwner`,
  `WindowShowsOwnerExactlyWhen`).
- No payment is ever retried and no receipt ever becomes available: a failed or voided attempt fails
  the request for good, and recording a delivery ends the request before a receipt could be finalized
  (`PaymentsAreNeverRetried`, `ReceiptsAreNeverAvailable`, and the runs `FailedPaymentsAreStranded`,
  `DeliveredReceiptsStayPending`). The attempt limit of three is never
  reached, the payment-failure cases never arise, delivered requests stay listed as pending receipts, and
  requeueing never pays (`CasesThatArise`, `DeliveredRequestsStayListed`, `RequeueingNeverPays`).
- A review campaign with a pending item whose grant has ended can never be completed
  (`StuckCampaignsNeverComplete`, `CampaignsCanGetStuck`). `CampaignsCompleteExactlyWhen` says exactly
  which campaigns still can: those whose pending grants live long enough to be resolved one by one.

## Model

| member | source | states |
|---|---|---|
| TelemetryRemediation.Newest | packages/database/src/observability-runtime.ts:1823-1848 | the listing is the newest reports first, at most the limit |
| TelemetryRemediation.FindLatestAssignment | packages/database/src/observability-runtime.ts:564-574 | finds the first hand-over to the given owner in the newest-first listing, or there is none |
| TelemetryRemediation.FindLatestInWindow | packages/database/src/observability-runtime.ts:557-562 | for every log and window, searching the truncated listing finds the newest matching report if and only if it lies inside the window |
| TelemetryRemediation.LeadingBreaches | packages/database/src/observability-runtime.ts:332-345 | the count is the exact length of the leading stretch of breached runs |
| TelemetryRemediation.CountConsecutiveBreaches | packages/database/src/observability-runtime.ts:332-345 | the counting loop with its break computes that length |
| TelemetryRemediation.FollowUpOnlyAges | packages/database/src/observability-runtime.ts:689-740 | waiting never makes a follow-up less urgent |
| TelemetryRemediation.FollowUpOnlyRaises | packages/domain/src/observability.ts:901-1023 | the follow-up only raises the posture; no action is recommended exactly when it is ready; ready with the follow-up means ready without it |
| TelemetryRemediation.RemediationIsExactly | packages/domain/src/observability.ts:901-1023 | ready exactly when all signals are healthy, the newest recovery did not fail, recoveries did not repeatedly fall short and no follow-up is due; escalated exactly after a failed recovery, repeated shortfalls or a critical follow-up |
| TelemetryRemediation.FollowUpIsExactly | packages/database/src/observability-runtime.ts:689-740 | a follow-up is due exactly for an owner of degraded telemetry who took it longer than the threshold ago, and critical beyond twice the threshold |
| TelemetryRemediation.OwnershipIsExactly | packages/database/src/observability-runtime.ts:587-687 | through any window: closed by the newest resolution while ready, else owned as the newest ownership action says, with its assigner exactly for hand-overs, else unassigned |
| TelemetryRemediation.LatestEvent | packages/database/src/observability-runtime.ts:880-900 | the event reported is the first of the latest ones |
| TelemetryRemediation.FollowThroughIsExactly | packages/database/src/observability-runtime.ts:742-805 | acted exactly when the owner acted since taking over; warning and critical exactly for handed-over owners who did not, by the follow-up |
| TelemetryRemediation.LastOwnerEventIsLatest | packages/database/src/observability-runtime.ts:742-785 | the owner event exists exactly when the owner acted or ran automation in the interval, and carries the latest such time |
| TelemetryRemediation.AccountabilityIsMetExactlyWhenActed | packages/database/src/observability-runtime.ts:854-928 | a verdict exists exactly when the owner was assigned in the listing; it is met if and only if a non-escalation action or run of the owner lies after the assignment and not after the evaluation, with the latest such time |
| TelemetryRemediation.ActedOwnersAreAccountable | packages/database/src/observability-runtime.ts:742-928 | follow-through 'acted' for an owner assigned in the listing forces accountability 'met' at the same event time |
| TelemetryRemediation.AssignedOwnersAreJudgedAlike | packages/database/src/observability-runtime.ts:742-928 | for an owner whose current ownership is an assignment or transfer, 'met' holds if and only if 'acted' holds |
| RemediationJournal.WindowDecides | packages/database/src/observability-runtime.ts:1850-1940 | any listing that reaches the newest ownership action yields the degraded-state decisions of the complete log |
| RemediationJournal.DueMeansUnanswered | packages/database/src/observability-runtime.ts:1191-1215 | an automatic escalation is due if and only if signals are degraded, the newest ownership action is overdue twice over, and no escalation follows it |
| RemediationJournal.ResolutionGuard | packages/database/src/observability-runtime.ts:2332-2379 | closing is accepted if and only if the posture is healthy, nobody else owns it, the window shows no resolution at all, and an API runtime snapshot is published |
| RemediationJournal.ClosersAreExactly | packages/database/src/observability-runtime.ts:2332-2379 | on every run with at most nine submitted escalations under one ownership action, who can close a recovered posture: given a runtime snapshot, the owner named by the newest ownership action (anybody when there is none), if and only if no resolution is among the newest twelve reports |
| RemediationJournal.ActionsRecordedExactlyWhen | packages/database/src/observability-runtime.ts:2232-2379 | on every run with at most nine submitted escalations under one ownership action, for each of the six actions, exactly when it is recorded, said of signals and the complete surviving log |
| RemediationJournal.RefusedExactlyWhy | packages/database/src/observability-runtime.ts:2250-2353 | each of the fifteen refusals exactly when its reason is the first that applies |
| RemediationJournal.OperatorReportIsExactly | packages/database/src/observability-runtime.ts:2356-2403 | what a recorded action writes; only a transfer carries a verdict, on the owner it takes over from, met exactly when that owner acted since the hand-over |
| RemediationJournal.EscalationReportIsExactly | packages/database/src/observability-runtime.ts:1217-1245 | an escalation names and judges the owner in force, or without one judges the latest assignee |
| RemediationJournal.ExecKeepsInv | packages/database/src/observability-runtime.ts:2232-2411 | one operation keeps: time order, justified escalations, resolutions separated by ownership actions |
| RemediationJournal.RunsKeepInv | packages/database/src/observability-runtime.ts:1140-1248 | the protocol invariant holds after every run in which only the automation escalates |
| RemediationJournal.ExecKeepsBounded | packages/database/src/observability-runtime.ts:2232-2411 | with submitted escalations allowed, one operation keeps: time order, and besides the submitted ones at most one escalation and one resolution after the newest ownership action |
| RemediationJournal.RunsStayBounded | packages/database/src/observability-runtime.ts:1140-1248 | that holds after every run with at most nine submitted escalations under one ownership action |
| RemediationJournal.WindowDecidesAsFullLog | packages/database/src/observability-runtime.ts:1823-1958 | on every run with at most n submitted escalations under one ownership action, n at most nine, truncation to twelve reports, or to any number from n + 3, changes neither owner, follow-up, remediation nor the verdict to escalate |
| RemediationJournal.OwnerIsNewestOfHistory | packages/database/src/observability-runtime.ts:587-672 | on every run with at most nine submitted escalations under one ownership action the degraded-state owner is that of the newest ownership action ever written, until retention deletes it |
| RemediationJournal.EscalationsAnswerOwnershipActions | packages/database/src/observability-runtime.ts:1191-1248 | on every run in which only the automation escalates, each escalation answers an overdue ownership action of the named owner; any two escalations have an ownership action strictly between them in time |
| RemediationJournal.FailurePathEscalatesOnce | packages/database/src/observability-runtime.ts:2205-2221 | the failure path's two checks at one instant append at most one report, whatever the log holds |
| RemediationJournal.OverdueOwnersAreEscalated | packages/database/src/observability-runtime.ts:1942-1958 | with at most nine submitted escalations under one ownership action, after a refresh under degraded signals an overdue newest ownership action has an escalation after it |
| RemediationJournal.WindowHidesOnlyOldResolutions | packages/database/src/observability-runtime.ts:614-625 | on such runs the healthy-state ownership read through the window differs from the complete log exactly when the newest resolution slid out of the window; it then shows the owner |
| RemediationJournal.HandOversChangeOwner | packages/database/src/observability-runtime.ts:2265-2304 | an accepted assignment or transfer names the chosen owner, who is not the current one; an assignment is never to oneself |
| RemediationJournal.OnlyOwnersReacknowledge | packages/database/src/observability-runtime.ts:2306-2331 | on such runs each re-acknowledgement was made by the owner in force |
| RemediationJournal.WindowShowsOwnerExactlyWhen | packages/database/src/observability-runtime.ts:1823-1848 | for any log the window shows the true owner if and only if fewer than twelve reports follow the newest ownership action |
| RemediationJournal.SubmittedEscalationsHideTheOwner | apps/api/src/modules/observability/observability.service.ts:58-75 | nine is the exact limit: a run with ten or more escalations submitted through the API under one ownership action, besides an automatic one and a resolution, hides the owner |
| RemediationJournal.NewOwnerCannotClose | packages/database/src/observability-runtime.ts:2332-2353 | concrete run in which the current owner of a recovered posture cannot close it because an older closure is still in the window |
| RemediationJournal.RunsKeepResolutionsFarApart | packages/database/src/observability-runtime.ts:614-625 | on every run without deletions, submitted escalations included, more than twelve reports separate any two resolutions |
| RemediationJournal.ReportDirectory.PersistEscalationIfNeeded | packages/database/src/observability-runtime.ts:1191-1248 | appends exactly the escalation that is due, or nothing |
| RemediationJournal.ReportDirectory.SyncFromCurrentStatus | packages/database/src/observability-runtime.ts:1942-1958 | re-evaluates and escalates as the step function says |
| RemediationJournal.ReportDirectory.RecordAction | packages/database/src/observability-runtime.ts:2232-2411 | recorded exactly when the guards accept it; a refused action leaves the reports alone; an accepted one is appended, retention applied and the status refreshed |
| RemediationJournal.ReportDirectory.RecordFailure | packages/database/src/observability-runtime.ts:2045-2230 | the failure path is two refreshes at one instant |
| OwnershipSamples.SortIsChronological | packages/database/src/observability-ownership.ts:160-167 | whatever order samples are read in, the sorted list is chronological and the same samples |
| OwnershipSamples.FindMostRecentHealthySample | packages/database/src/observability-ownership.ts:169-177 | the backward scan finds the newest healthy sample of the forward fold |
| OwnershipSamples.FindCurrentBreachStartedAt | packages/database/src/observability-ownership.ts:179-214 | the backward scan equals the forward fold (healthy clears, first unhealthy sets), with the stale-healthy case in front |
| OwnershipSamples.BreachStartIsExactly | packages/database/src/observability-ownership.ts:179-214 | a breach began when a healthy signal went stale, or with the first sample after the newest healthy one |
| OwnershipSamples.StatusIsExactly | packages/database/src/observability-ownership.ts:227-258 | a healthy signal counts as warning once older than allowed and as critical beyond twice that age; any other shows its newest sample |
| OwnershipSamples.FindLastRecoveredAt | packages/database/src/observability-ownership.ts:260-271 | the backward loop finds the newest step from unhealthy to healthy |
| OwnershipSamples.DeriveOwnershipRecord | packages/database/src/observability-ownership.ts:216-298 | the derived window in terms of the folds |
| OwnershipSamples.WindowIsConsistent | packages/database/src/observability-ownership.ts:216-298 | breach start is absent exactly when currently healthy; last recovery, last healthy sample, breach start and now are in order |
| OwnershipSamples.StaleBreachMinutes | packages/database/src/observability-ownership.ts:87-93 | the minutes of a stale-healthy breach are exactly age minus threshold under the code's rounding |
| OwnershipSamples.RecoveriesEndBreaches | packages/database/src/observability-ownership.ts:169-271 | one more sample changes the folds as an incremental observer would; a recovery is recorded exactly when a breach was running |
| OwnershipSamples.TransitionsAlternate | packages/database/src/observability-ownership.ts:337-346 | adjacent transitions differ and the last carries the latest status |
| OwnershipSamples.TransitionsAreFaithful | packages/database/src/observability-ownership.ts:337-346 | for distinct sample times every sample's status is that of the last transition not after it |
| OwnershipSamples.TrendIsFaithful | packages/database/src/observability-ownership.ts:337-346 | the six transitions kept still tell the status of every sample since the first of them |
| Labels.FirstColonSplits | packages/domain/src/operator-workflow.ts:170-172 | a colon-joined key determines its part before the first colon |
| OperatorCases.CategoriesFitActions | packages/domain/src/operator-workflow.ts:183-282 | a paused request, and only it, is offered for release; which of the five actions are offered, exactly; requeueing only meets failed payments and failed receipts |
| OperatorCases.ClassifiedExactly | packages/domain/src/operator-workflow.ts:183-257 | for each category exactly which observed states need such a case |
| OperatorCases.CaseKeyIsInjective | packages/domain/src/operator-workflow.ts:170-172 | a case key names one category of one request |
| OperatorCases.FingerprintIsInjective | packages/database/src/operator-workflow.ts:180-196 | equal fingerprints come from equal observed states |
| OperatorCases.OpenCasesAreWanted | packages/database/src/operator-workflow.ts:433-553 | after a sync every open case is the currently classified case of its own request |
| OperatorCases.AtMostOneOpenCase | packages/database/src/operator-workflow.ts:391-587 | after a sync no request has two open cases |
| OperatorCases.SyncKeepsOpenCases | packages/database/src/operator-workflow.ts:479-509 | a case that was open and is still wanted keeps its exact status and reason |
| OperatorCases.SyncStartsCases | packages/database/src/operator-workflow.ts:479-523 | a new or reopened case asks for action exactly when paused or out of payment attempts, and is merely open otherwise, without reason and unread |
| OperatorCases.SyncEndsCases | packages/database/src/operator-workflow.ts:549-586 | a case nobody wants is resolved if it was open, keeping a reason it had |
| OperatorCases.SyncIsIdempotent | packages/database/src/operator-workflow.ts:391-587 | a second sync on unchanged requests changes no case and no notification |
| OperatorCases.SyncKeepsNotifications | packages/database/src/operator-workflow.ts:525-533 | a sync keeps every notification unread exactly while its case is open |
| OperatorCases.OpenExactlyWhenUnread | packages/database/src/operator-workflow.ts:899-1053 | over all runs of syncs, actions and request changes a case is open exactly when its notification is unread |
| OperatorCases.ActionOutcome | packages/database/src/operator-workflow.ts:914-1079 | after an allowed action and its closing sync: the request paused, released, paid or untouched, all others unchanged, and the exact status and reason of the case |
| OperatorCases.PausingFiles | packages/database/src/operator-workflow.ts:981-1000 | after a pause the request is paused and has its pause case, open unless resolved for that very state |
| OperatorCases.OpenCasesStayInHand | packages/database/src/operator-workflow.ts:479-509 | through any run an open case keeps status and reason while its request wants it and nobody acts on it |
| OperatorCases.AnnotationsStick | packages/database/src/operator-workflow.ts:1023-1041 | an annotated case stays under investigation through every such run |
| OperatorCases.ResolvingIsSticky | packages/database/src/operator-workflow.ts:1023-1041 | resolving an open case binds the resolution to the state it was made in |
| OperatorCases.ResolutionSticks | packages/database/src/operator-workflow.ts:480-509 | a resolved case keeps status and reason through any run in which its request looks the same and nobody acts on it |
| OperatorCases.ReopensExactlyOnChange | packages/database/src/operator-workflow.ts:480-509 | a sync leaves it resolved if and only if the request looks as it did; any other state of the category reopens it, clears the reason and notifies |
| OperatorCases.OperatorDesk.SyncOperatorCases | packages/database/src/operator-workflow.ts:391-587 | the two reconciliation loops produce the declarative sync and audit exactly the cases that were opened and resolved, once each |
| OperatorCases.OperatorDesk.ResolveStaleCases | packages/database/src/operator-workflow.ts:549-586 | the second loop resolves exactly the open cases no request wants |
| OperatorCases.OperatorDesk.ApplyAction | packages/database/src/operator-workflow.ts:965-1053 | the writes of an allowed operator action to request, case, notification and audit trail |
| OperatorCases.OperatorDesk.PerformCaseAction | packages/database/src/operator-workflow.ts:914-1079 | sync, act if allowed, sync again |
| IncidentTriggers.DedupeKeyIsInjective | packages/database/src/observability-operations.ts:849-850 | a dedupe key names one alert of one environment |
| IncidentTriggers.Select | packages/domain/src/observability.ts:871-878 | a threshold of info selects every alert, warning all but info, critical only critical ones |
| IncidentTriggers.LowerThresholdsSelectMore | packages/domain/src/observability.ts:871-878 | critical alerts reach every threshold and a lower threshold takes no alert away |
| IncidentTriggers.MoveKeepsInv | packages/database/src/observability-operations.ts:903-968 | a sync keeps: active exactly while unread, and exactly while the alternating audit trail ends with triggered |
| IncidentTriggers.SweepKeepsInv | packages/database/src/observability-operations.ts:413-435 | a retention sweep keeps the same |
| IncidentTriggers.SweepDeletesExactly | packages/database/src/observability-operations.ts:413-435 | retention deletes exactly the resolved triggers dated before the cutoff |
| IncidentTriggers.SweepKeepsActive | packages/database/src/observability-operations.ts:413-435 | retention never deletes an active trigger |
| IncidentTriggers.RunsKeepInv | packages/database/src/observability-operations.ts:820-991 | over all runs of syncs and sweeps, for all environments together, that invariant holds |
| IncidentTriggers.RepeatedSyncIsQuiet | packages/database/src/observability-operations.ts:820-991 | repeating a sync raises nothing, resolves nothing, and leaves notifications and audit trails alone |
| IncidentTriggers.IncidentStore.RaiseSelected | packages/database/src/observability-operations.ts:849-934 | the first loop raises every selected alert and counts exactly the newly active ones |
| IncidentTriggers.IncidentStore.ResolveMissing | packages/database/src/observability-operations.ts:936-968 | the second loop resolves exactly the active triggers without alert, and counts them |
| IncidentTriggers.IncidentStore.SyncTriggers | packages/database/src/observability-operations.ts:820-991 | this environment's active triggers become exactly those of the alerts that reach the threshold by name; dropped ones are resolved now, all other rows untouched; active after = active before + created - resolved |
| AtlasCsv.CellReadsBack | packages/domain/src/analytics-reporting.ts:237-248 | every text reads back as itself, whatever quotes, commas and line feeds it contains |
| AtlasCsv.CsvRoundTrip | packages/domain/src/analytics-reporting.ts:294-301 | reading an export returns exactly headings and cell texts, missing and null values as empty, if and only if there is a column |
| AtlasCsv.CsvIsInjective | packages/domain/src/analytics-reporting.ts:294-301 | exports with equal text show equal tables |
| IdentitySessions.ExecContinues | packages/database/src/auth-sessions.ts:227-390 | no operation revives an ended session, rewrites a session or link owner, or lifts a revoked link |
| IdentitySessions.LinkChangesExactly | packages/database/src/access-governance.ts:779-938 | which link actions take effect on which standing, for whom, and exactly which sessions end |
| IdentitySessions.AssignmentChangesExactly | packages/database/src/external-identity-access.ts:601-710 | the same for assignments |
| IdentitySessions.ExchangeIssuesExactly | packages/database/src/auth-sessions.ts:227-390 | exactly when a session is issued, and that nothing else changes |
| IdentitySessions.ProvisioningIsExactly | packages/database/src/external-identity-access.ts:407-599 | exactly when an assignment becomes active, for whom, and that nothing else changes |
| IdentitySessions.RevocationIsExactly | packages/database/src/access-governance.ts:940-1029 | exactly which session an operator can end |
| IdentitySessions.LinkLossIsFinalForSessions | packages/database/src/access-governance.ts:826-916 | sessions issued before a link was suspended or revoked never load again, reactivation included |
| IdentitySessions.AssignmentLossIsFinalForSessions | packages/database/src/external-identity-access.ts:290-341 | sessions issued before an assignment was suspended or revoked never load again, re-provisioning included |
| IdentitySessions.RevokedLinksStayClosed | packages/database/src/auth-sessions.ts:296-301 | once a link is revoked no session of its provider and subject ever loads |
| IdentitySessions.RunsKeepInv | packages/database/src/external-identity-access.ts:407-710 | every session belongs to its link's user and is ended when link or assignment is not active; assignments are for the membership's own address |
| IdentitySessions.SessionsBelongToTheirLink | packages/database/src/auth-sessions.ts:289-294 | on every run a session's user is its link's user |
| IdentitySessions.LoadsExactlyWhenAlive | packages/database/src/auth-sessions.ts:392-444 | on every run a session loads if and only if it is neither revoked nor expired |
| IdentitySessions.IdentityStore.RevokeSessions | packages/database/src/external-identity-access.ts:290-341 | the revocation loop ends exactly the chosen live sessions and counts them |
| IdentitySessions.IdentityStore.ExchangeSession | packages/database/src/auth-sessions.ts:227-390 | issues a fresh live session or changes neither sessions nor links |
| IdentitySessions.IdentityStore.UpdateLinkLifecycle | packages/database/src/access-governance.ts:779-938 | done exactly when the link's user belongs to a buyer or seller and the action fits the standing; then standing and sessions change together |
| IdentitySessions.IdentityStore.UpdateAssignmentLifecycle | packages/database/src/external-identity-access.ts:601-710 | the same for assignments to buyers and sellers |
| IdentitySessions.IdentityStore.ProvisionAssignment | packages/database/src/external-identity-access.ts:407-599 | provisions or re-activates the assignment of the addressed user to a buyer or seller |
| IdentitySessions.IdentityStore.RevokeOneSession | packages/database/src/access-governance.ts:940-1029 | ends one loadable session of a buyer or seller |
| SupportAccess.CandidateItems | packages/database/src/access-governance.ts:348-402 | exactly the organization's grants that need recertification within the lookahead |
| SupportAccess.ActivatableGrantIsCovered | packages/database/src/support-access.ts:613-650 | a grant that can be activated is unexpired and freshly approved by somebody else |
| SupportAccess.TimeActsExactly | packages/database/src/support-access.ts:231-292 | what time alone makes of a grant, status by status |
| SupportAccess.GrantStepIsExactly | packages/database/src/support-access.ts:383-755 | who can review, recertify, activate and revoke which grants when, and with what outcome |
| SupportAccess.IssueIsExactly | packages/database/src/support-access.ts:294-381 | which grants are issued |
| SupportAccess.CampaignHoldsExactly | packages/database/src/access-governance.ts:348-473 | an owner or admin creates a campaign exactly when a grant is due, and it holds exactly the due grants |
| SupportAccess.ResolutionIsExactly | packages/database/src/access-governance.ts:519-648 | exactly when a campaign item is resolved, with what effect on grant, item and campaign |
| SupportAccess.RunsKeepInv | packages/database/src/support-access.ts:231-755 | the grant, activation and campaign invariants hold over all runs, and grants only ever move forward |
| SupportAccess.ActivationsAreJustified | packages/database/src/support-access.ts:613-650 | every activation was by the issuer, before expiry, less than the review lifetime after another user's approval |
| SupportAccess.ReviewsLapseBeforeGrants | packages/database/src/support-access.ts:170-174 | in every active state the review lapses no later than the grant and within the review lifetime |
| SupportAccess.TerminalGrantsStay | packages/database/src/support-access.ts:231-292 | rejected, revoked and expired grants never change status again |
| SupportAccess.CampaignsTellTheTruth | packages/database/src/access-governance.ts:519-648 | completed exactly when no item is pending; revoked items have revoked grants, recertified ones a recertification |
| SupportAccess.ResolutionsCountDown | packages/database/src/access-governance.ts:519-648 | pending items plus accepted resolutions stay constant along every run |
| SupportAccess.CompletedAfterAllItems | packages/database/src/access-governance.ts:404-648 | a campaign is completed after exactly as many accepted resolutions as it has items |
| SupportAccess.StuckCampaignsNeverComplete | packages/database/src/access-governance.ts:560-583 | a campaign with a pending item whose grant has ended can never be completed |
| SupportAccess.CampaignsCanGetStuck | packages/database/src/access-governance.ts:560-583 | concrete run into such a campaign |
| SupportAccess.PendingItemsResolvableUnlessEnded | packages/database/src/access-governance.ts:560-583 | a pending item can be revoked away if and only if its grant has not ended |
| SupportAccess.CampaignsCompleteExactlyWhen | packages/database/src/access-governance.ts:519-648 | after every run a campaign can still be completed, whatever operators may do, if and only if its pending items have an order in which the k-th grant has not ended and expires later than k clock ticks from now; then any one owner or admin of the organization can complete it by revocations |
| SupportAccess.SupportDesk.MarkExpiredGrantIfNeeded | packages/database/src/support-access.ts:231-292 | lets time act on one grant |
| SupportAccess.SupportDesk.PerformOnGrant | packages/database/src/support-access.ts:383-755 | review, recertify, activate, revoke: a refusal still leaves the expiry mark; only activation logs, and needs a fitting provider mode |
| SupportAccess.SupportDesk.IssueGrant | packages/database/src/support-access.ts:294-381 | issues a pending grant exactly when its target is found and its expiry is in the future |
| SupportAccess.SupportDesk.CreateReviewCampaign | packages/database/src/access-governance.ts:404-473 | a created campaign has items |
| SupportAccess.SupportDesk.ResolveCampaignItem | packages/database/src/access-governance.ts:519-648 | a refused resolution rolls everything back |
| SupportAccess.CountPending | packages/database/src/access-governance.ts:606-611 | the count of pending items |
| Texts.TrimTwice | packages/config/src/index.ts:1338-1344 | trimming is idempotent |
| Texts.TrimDropsOnlySpaces | packages/config/src/index.ts:1338-1344 | trimming drops white space at both ends, all of it, and nothing else |
| BuyerPolicy.NormalizedRulesDecideAlike | packages/domain/src/buyer-workflow.ts:144-158 | normalizing stored rules never changes a verdict |
| BuyerPolicy.VerdictIsExactly | packages/domain/src/buyer-workflow.ts:160-270 | on the rules as stored: denied exactly when stopped, inactive, above the maximum or off one of the three lists; approved at once exactly when admitted and within the threshold |
| BuyerPolicy.SmallerAmountsFareNoWorse | packages/domain/src/buyer-workflow.ts:160-270 | asking for less never fares worse |
| SpendLifecycle.FindByKey | packages/database/src/buyer-workflow.ts:795-803 | finds the request of an organization filed under a key, or there is none |
| SpendLifecycle.KeysStayUnique | packages/database/src/buyer-workflow.ts:787-968 | on every run an organization has at most one request per idempotency key |
| SpendLifecycle.CreatedExactlyWhen | packages/database/src/buyer-workflow.ts:845-960 | for whom a request is stored and with which status and approval, by the governing policy |
| SpendLifecycle.KeyInUseAnswers | packages/database/src/buyer-workflow.ts:793-843 | a key in use answers its request, or refuses another payload |
| SpendLifecycle.RefusedExactlyWhy | packages/database/src/buyer-workflow.ts:787-890 | each refusal of a creation exactly when its reason is the first that applies |
| SpendLifecycle.PaidRequestsWereAdmitted | packages/database/src/buyer-workflow.ts:845-960 | on every run a paid request was admitted by the policy governing its creation and approved by threshold or by a later decision of its organization |
| SpendLifecycle.PaymentSettles | packages/database/src/payments-workflow.ts:1098-1270 | for any request: the attempt added by an executed payment, and what capture, failure and fulfilment make of payment, request and receipt |
| SpendLifecycle.OtherChangesAreExactly | packages/database/src/buyer-workflow.ts:1200-1303 | for any request: who can decide and fulfil it, with what outcome, and what a pause changes |
| SpendLifecycle.ReplaysAreIdempotent | packages/database/src/buyer-workflow.ts:793-843 | after any interleaving a replay changes nothing: same payload, same id; other agent, amount, title, category or service key, refused |
| SpendLifecycle.RequestsStayConsistent | packages/database/src/buyer-workflow.ts:888-968 | approval pending exactly while submitted; payments only under a granted approval; completed exactly when delivered; storage key exactly when receipt available or failed |
| SpendLifecycle.AttemptsStayInOrder | packages/database/src/payments-workflow.ts:1098-1226 | attempts numbered from one without gaps within the limit on the payment's rail; all but the newest had a retried status; the payment shows the newest |
| SpendLifecycle.FinalRequestsStay | packages/database/src/payments-workflow.ts:1010-1012 | rejected, failed and completed requests keep status, payment and receipt through every continuation |
| SpendLifecycle.PausedRequestsAreNotPaid | packages/database/src/payments-workflow.ts:1003-1008 | no attempt is added to a paused request |
| SpendLifecycle.PaymentsAreNeverRetried | packages/domain/src/payments-workflow.ts:166-176 | with the source's retried statuses every payment has exactly one attempt and no further one is ever allowed |
| SpendLifecycle.FailedPaymentsAreStranded | packages/database/src/payments-workflow.ts:1003-1037 | concrete run into a retry-eligible failed payment that payment control never pays again |
| SpendLifecycle.RetriesNeedALiveStatus | packages/database/src/payments-workflow.ts:1003-1068 | for an arbitrary retry rule, exactly when a further attempt is allowed, the rail's own say included |
| SpendLifecycle.ReceiptsAreNeverAvailable | packages/domain/src/payments-workflow.ts:251-265 | no receipt ever becomes available |
| SpendLifecycle.DeliveredReceiptsStayPending | packages/database/src/seller-workflow.ts:868-921 | concrete run, with every continuation, into a captured and delivered request whose receipt stays pending without storage key |
| SpendLifecycle.SpendDesk.CreateBuyerRequest | packages/database/src/buyer-workflow.ts:787-968 | answer and table after a creation |
| SpendLifecycle.SpendDesk.DecideBuyerApproval | packages/database/src/buyer-workflow.ts:1200-1303 | decides only pending approvals of the organization |
| SpendLifecycle.SpendDesk.ExecuteRequestPayment | packages/database/src/payments-workflow.ts:944-1347 | payment, attempt, request and receipt rows after an execution |
| SpendLifecycle.SpendDesk.RecordSellerFulfilment | packages/database/src/seller-workflow.ts:839-944 | fulfilment and final status of an approved or executing request of the seller |
| OperatorOutlook.CasesThatArise | packages/domain/src/operator-workflow.ts:183-257 | on every run exactly which case a request gets, from its payment and fulfilment; payment failure and exhausted retries never arise |
| OperatorOutlook.DeliveredRequestsStayListed | packages/domain/src/operator-workflow.ts:246-254 | a captured and delivered request stays listed as a pending receipt in every continuation in which it is not paused |
| OperatorOutlook.DeliveredRequestsOccur | packages/domain/src/operator-workflow.ts:246-254 | concrete run, with every continuation, of such a request |
| OperatorOutlook.RequeueingNeverPays | packages/domain/src/operator-workflow.ts:278-280 | requeueing is only offered for requests payment control refuses to pay again |
| SecretRotation.ValidateTimestampAge | packages/config/src/index.ts:1309-1320 | no issue exactly when dated and fresh; otherwise exactly the fitting issue |
| SecretRotation.ValidateEntries | packages/config/src/index.ts:1348-1370 | the entry loop reports nothing exactly when all entries are fine and distinct, and collects exactly the good keys |
| SecretRotation.ValidateRequired | packages/config/src/index.ts:1372-1376 | one issue for exactly the required keys not seen |
| SecretRotation.ValidateManifest | packages/config/src/index.ts:1322-1381 | no issues if and only if the manifest meets the declarative specification |
| SecretRotation.CleanKeys | packages/database/src/rollout-automation.ts:609-609 | the trimmed non-blank keys, each once |
| SecretRotation.RotatesExactlyWhen | packages/database/src/rollout-automation.ts:598-630 | each refusal of a rotation exactly when its reason is the first that applies, and otherwise the manifest written |
| SecretRotation.ProducedManifestsPassExactlyWhen | packages/database/src/rollout-automation.ts:598-630 | a produced manifest passes for its environment within the age window exactly when its keys cover the required ones and have two characters each |

## Left out

- Analytics buckets, timelines and breakdowns: sums per key, which would only add easy members.
- Report files, spawned commands, object storage, payment providers, queues and web wiring: a payment
  rail is an arbitrary status and reference, a report directory a sequence.
- Races between reading link or assignment and committing a session: the exchange is one atomic step.
- Signature checks, token encoding, hashing and JSON: library primitives.
- Role and workspace guards other than reviewer, issuer, owner, organization, tenant and seller. Actors
  from support-access sessions never have the operator workspace, as grants target buyers and sellers.
- Free-text reasons (except a case's resolution reason), titles, summaries, notification prose.
- Pause metadata other than the flag: who paused or released when, and why.
- Notifications of the remediation protocol itself and of the payment workflows.
- Statuses the modelled operations never write (drafts, cancellations, expired approvals, seeded rows):
  runs start from empty tables.
- Triggers resolved without a resolution time, which the retention sweep dates by their last update:
  every resolution modelled here records its time.
- Two reports written in the same millisecond share a file name in the source and overwrite each other.
- IdentitySessions.IdentityStore.ExchangeSession: identifiers arrive trimmed; addresses are lower-cased
  letter by letter for A to Z.
- OwnershipSamples.StaleBreachMinutes: stated for whole-minute thresholds, as configured.
- IncidentTriggers.IncidentStore.SyncTriggers: does not describe alerts that repeat an id.
- RemediationJournal.OwnerIsNewestOfHistory: covers runs with at most nine submitted escalations under
  one ownership action, because with ten it is false, see above.
- RemediationJournal.EscalationsAnswerOwnershipActions: covers runs without submitted escalations, which
  answer nothing and cannot be told from automatic ones in the log.
