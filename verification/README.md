# A verified model of the shiftedx harness proxy

The proxy stands between a client that executes tools and a model that proposes them. It keeps
receipts of executed tools, withholds unsafe proposals, limits how much it does at once, and is
qualified by campaigns whose evidence is counted exactly. This project models the six cores that
carry those promises and proves them for every input, every run and every crash point.

| file | part of the program |
|---|---|
| `Harness.dfy` | receipts, incremental harness fields, the terminal gate (`core.py`) |
| `Projection.dfy` | answering from the latest receipt (`projection.py`) |
| `PolicyLoop.dfy` | the bounded retry loop (`service.py`) |
| `Api.dfy` | intervention counters, delivery of a replayed response (`api.py`) |
| `AdmissionProtocol.dfy`, `AdmissionBudgets.dfy`, `Admission.dfy` | permits, budgets and rate windows (`admission.py`): the protocol, who shares a budget and how long it is kept, the controller |
| `Binomial.dfy`, `Statistics.dfy`, `Pairing.dfy`, `Evaluator.dfy`, `Promotion.dfy` | the v2 evaluator (`qualification_campaign_v2.py`) |
| `ObserverCursor.dfy`, `Reconciliation.dfy`, `Accounting.dfy`, `ObserverSession.dfy` | the observer ledger by turns, request rows against it, their producer, and whole sessions |
| `RunExpansion.dfy` | the greedy run-expansion check (`qualification_contract.py`) |
| `CampaignChain.dfy`, `Campaign.dfy`, `CampaignHistory.dfy`, `CampaignLoading.dfy`, `CampaignEvents.dfy` | the append-only campaign (`qualification_campaign.py`): its event chain, one advance, whole histories, when they load, what an advance writes and answers |
| `Replay.dfy`, `ServerSentEvents.dfy`, `ReplayClient.dfy`, `ReplayDelivery.dfy` | validate-then-replay (`streaming.py`): the stream, its bytes, the client, all together |
| `JsonValues.dfy`, `Wrappers.dfy`, `Sets.dfy` | JSON documents, optional values and results, finite sets |

Objects the program updates in place are classes here (`AgentHarness`, `ChatService`, `Counters`,
`ReplayResponse`, `AdmissionController`, `ModelBoundaryObserverCursor`, `ProxyRequestAccounting`,
`CampaignDirectory`), its loops are loops, and each method is proved against a function or predicate
about which the lemmas then speak. The admission protocol is a state machine: one step is the code
between two suspension points, and timeouts and cancellations are events that may strike any
suspended request.

## Assumptions

- Tool signatures, receipt statuses and parsed JSON are inputs; a content string arrives as blank,
  not JSON, or a document, after the fence removal that the service applies.
- Reconstruction from a transcript is recording every visible execution in order.
- Decimal amounts and clock readings are exact reals. The clock never goes back.
- Credential digests are opaque keys. The digest of a campaign event is any function of the event;
  the one lemma that needs it says that the function is injective.
- A file write is atomic and never replaces a file. The process may die before any write.
- A byte of a replayed stream is one character, and every event can be printed: a string with a lone
  surrogate, on which encoding raises in the source, does not occur. On the events of the replayed completion the JSON
  writer prints no line break and the JSON reader inverts it; for any list of events some writer and
  reader do (`WriterAndReaderExist`).
- Starting a campaign stage may leave anything in its directory, or nothing that inspection sees, and
  anything may happen to stage directories between two advances.
- The roles of a tool need not be disjoint: nothing proved here uses it.

## Where the code is not what it seems

Each of these is a lemma with the exact condition, or a lemma with a concrete witness.

- `docs/policy.md` lines 175-177 say that a successful verifier closes the duty to verify, and that
  a failed verification closes only after a changed action. In the code any verification clears the
  pending bit, a failed one too, and the same tool succeeding closes its failure with no change in
  between (`ObligationsClose`; `FailedCheckEndsDuty` is such a history). The promise about released
  answers holds all the same (`ReleasedAnswerIsVerified`, `Serve`), because a failed verification
  opens a failure.
- The greedy run-expansion check can reject a list that is an expansion
  (`GreedyCanMissAnExpansion`). It accepts exactly when there are at most as many blocks of equal
  attempts as items, at most as many items as attempts, and every item agrees with the attempt at its
  place, which is the first one of its block, or the last one that leaves enough for the later items
  (`GreedyIsDecidedByPlaces`). These are the expansions whose runs are eager (`GreedyIffEager`), and
  all expansions when no proxy value agrees with two neighbours (`SeparatedGreedyIsComplete`).
- A stage result may carry the failure category `campaign_partial_stage`, which the event loader
  reserves for partial stages. The event written for it can then never be read back
  (`ReloadsUnlessReserved`, `ReservedResultSticks`): no directory that holds it loads, whatever the
  stages show, and every later advance raises and leaves the disk as it was (`StuckNeverLoads`,
  `StuckForever`). Without such results, and with evidence that stays, every directory of a campaign
  loads and a fit stage is always recorded (`HonestCampaignsLoad`, `HonestCampaignsAdvance`).
- Inspection answers `absent` when a start left none of the reserved paths (`qualification_runtime.py`
  lines 1086-1092), and also, whatever reserved paths there are, when the runtime specification or the
  binding no longer loads and there is no outcome (lines 1082-1085). The next advance then starts the
  stage again (`StartedTwice`). An advance starts the next stage iff it gets that far, the stage reads as absent and
  the runtime is ready (`StartsIff`); so a stage started before is started again iff all that its
  starts left reads as absent (`StartedAgainIff`), and never while something shows (`NeverRerun`).
- A tool call that brings its own `index` overrides its position in the replayed delta, and calls with
  one index become one (`CallsAreMerged`, `ForeignIndexMergesCalls`). All calls come back, each at its
  position, iff the indices are distinct positions and each belongs to an equal call
  (`CallsAreRebuiltIff`); as many come back as there are iff the indices are distinct
  (`AllCallsAreSeenIff`). Choices sharing an index cannot be told apart (`ReplayRoundTrip`). A whole
  completion comes back from its bytes iff neither happens (`ComesBackIff`, `Deliver`).
- A turn of the observer cursor without correlation takes the ledger from the cursor on, records that
  a correlated turn has taken included (`PlainTurnCanRepeat`). It takes none twice iff no consumed
  record lies behind the cursor (`PlainTurnIsNewIff`), as is the case when no correlated turn ends
  between its start and its end (`BegunPlainTurnIsNew`). The runner never mixes the two: one upstream
  always or never has a digest to pass (`scripts/run_paired_agentic_trial.py` lines 881-885).
- A correlated turn carries the ledger on only if no record of its digest comes after one of another
  (`CorrelatedTurnContinuesIff`).
- When the accounting of an answer contradicts the observer and its turn is also invalid or empty, the
  refusal is raised while that failure is handled, and the turn is left without a row (`RecordCall`
  says exactly when). Where every turn has its row, a drained session reconciles (`RunSession`).
- Which failure the pairing of qualification rows reports depends on the order of the rows
  (`ReportedFailureDependsOnOrder`, on 480 rows). With the right number of rows, a kind of failure is
  reported in some order iff the rows show it (`ReachableIff`), so the verdict is the same in every order
  iff they show at most one kind (`OrderIndependentIff`). Whether it fails, and what it pairs, never
  depends on the order (`PairingIgnoresOrder`).
- The rejection of a stale receipt in a projection decision can never happen
  (`StaleReceiptUnreachable`); nor can the checks for a missing arm or two deadlines after the scan
  of the rows (`KeyIsPaired`), or the count of distinct instances at completion
  (`FullChainPassed`).

## Model

| member | source | states |
|---|---|---|
| Harness.AgentHarness.Record | src/shiftedx_harness_proxy/core.py:246-273 | Recording appends one receipt and keeps every incremental field equal to its meaning over the whole receipt history; the block flags are cleared. |
| Harness.AgentHarness.Append | src/shiftedx_harness_proxy/core.py:246-273 | The field updates of recording from any field values: the new receipt and the step function of the fields. |
| Harness.StepExact | src/shiftedx_harness_proxy/core.py:246-273 | If the fields mean what they should before a receipt, they do after it: epoch counts successful mutations, pending iff none of the later receipts verifies the last mutation, open failures map exactly the verification tools whose latest receipt failed, the stall counter counts investigations since the last reset. |
| Harness.ObligationsClose | src/shiftedx_harness_proxy/core.py:258-272 | An open failure ends exactly with a success of the same tool; a pending verification ends exactly with a receipt of a verification tool that is no successful mutation, failed or not. |
| Harness.FailedCheckEndsDuty | src/shiftedx_harness_proxy/core.py:258-272 | A witness: a failed check ends the duty to verify an edit, and the same check passing ends the failure, with no change in between. |
| Harness.SettledHistoryIsVerified | README.md:173 | With nothing pending and nothing open, every successful mutation in the history is followed by a later successful verification. |
| Harness.CurrentEpochMeansUnchangedState | src/shiftedx_harness_proxy/core.py:241 | A receipt carries the current epoch iff no successful mutation happened at or after it. |
| Harness.DuplicateInExact | src/shiftedx_harness_proxy/core.py:235-244 | The backward search finds the latest receipt with the signature and epoch, and None only if there is none. |
| Harness.Ledger.DuplicateExact | src/shiftedx_harness_proxy/core.py:235-244 | A duplicate is the latest receipt with that signature made strictly after the last successful mutation; None iff there is no such receipt. |
| Harness.Ledger.StallsExact | src/shiftedx_harness_proxy/core.py:296-307 | A call stalls iff it investigates, some verification tool's latest receipt failed, a mutation tool is available, and three successful investigations were made since the last reset. |
| Harness.AgentHarness.BlockedResult | src/shiftedx_harness_proxy/core.py:275-294 | Blocking a duplicate counts it, marks the action blocked, and allows finalization iff the prior receipt succeeded and the state is settled. |
| Harness.AgentHarness.StalledResult | src/shiftedx_harness_proxy/core.py:296-320 | A stalled call is counted and marked, any other call changes nothing. |
| Harness.AgentHarness.TerminalIssueExact | src/shiftedx_harness_proxy/core.py:322-356 | The gate passes iff there is a receipt where one is required, no unresolved block, the latest receipt succeeded, no verification tool failed last, no mutation awaits verification, and the content conforms to the contract. |
| Harness.AgentHarness.TerminalIssueIsFirst | src/shiftedx_harness_proxy/core.py:322-356 | The issue named is a defect of the answer or of the history, and the first one in the order of the code; none is named iff there is none. The defects are stated over the receipts and the content, each with what it reports: the tools whose latest check failed, the number of failed receipts. |
| Harness.AnswerableExact | src/shiftedx_harness_proxy/core.py:322-356 | What the gate asks beside unresolved blocks is the same condition on the history and the content. |
| Harness.FailuresCount | src/shiftedx_harness_proxy/core.py:343 | The expected number of failed executions is the size of the set of failed receipts. |
| Harness.AgentHarness.ReleasedAnswerIsVerified | README.md:173 | For any recorded history: when the gate passes, every successful mutation is followed by a later successful verification. |
| Harness.Reconstruct | src/shiftedx_harness_proxy/service.py:201-208 | Rebuilding by recording every visible execution yields one matching receipt each, in order, and a valid harness with nothing blocked or corrected. |
| Projection.ShadowCandidatePassesIffClaimHolds | src/shiftedx_harness_proxy/projection.py:76-114 | A shadow candidate passes the gate of model answers iff its enforced failed_executions claim, if it makes one, is right. |
| Projection.SchemaDeclaresTypes | src/shiftedx_harness_proxy/projection.py:137-144 | A declared schema lists exactly the required keys with their required types. |
| Projection.ProjectedAnswerPassesGate | src/shiftedx_harness_proxy/projection.py:53-73 | Every eligible projection passes the gate, comes from the latest receipt, and that receipt is a successful verification by the named tool. |
| Projection.ProjectedAnswerIsVerified | src/shiftedx_harness_proxy/projection.py:53-73 | Projected answers inherit the verified-mutation theorem. |
| Projection.ShadowCandidateIff | src/shiftedx_harness_proxy/projection.py:76-114 | A latest result is a shadow candidate iff nothing is degraded, blocked or owed, the latest receipt is a success of just this tool, which is declared if any tool is, and the result is the summary of a verifier for an answer of status and tests, or an object with exactly the declared keys, all primitive and well typed, which is then the candidate. |
| Projection.LocalProjectionIff | src/shiftedx_harness_proxy/projection.py:53-73 | A request is answered locally iff the first half of that holds and the result is the verifier summary. |
| Projection.RejectionIsFirst | src/shiftedx_harness_proxy/projection.py:53-180 | The reason for a rejection is the first that applies, each stated over the history, the transcript, the contract and the result; none applies iff the result is projected. |
| Projection.StaleReceiptUnreachable | src/shiftedx_harness_proxy/projection.py:92-97 | On a harness built by recording, the decision is never the stale-receipt rejection. |
| PolicyLoop.ScreenCall | src/shiftedx_harness_proxy/service.py:639-674 | One call is screened by the verdict function; counters and flags change exactly as the verdict says. |
| PolicyLoop.RejectedResults | src/shiftedx_harness_proxy/service.py:634-675 | The batch is withheld iff some call has a verdict; finalization is allowed iff every call of the batch is a finalizable repeat; counters grow by the repeats and stalls. |
| PolicyLoop.PassedCallIsFresh | src/shiftedx_harness_proxy/service.py:645-672 | A call passes the screen iff it is well formed, permitted, not stalled, and every earlier receipt with its signature has a successful mutation at or after it. |
| PolicyLoop.VerdictExact | src/shiftedx_harness_proxy/service.py:639-674 | Which verdict a call gets, said about the call and the receipts: not an object, bad arguments, denied, stalled, or a repetition of the latest receipt with its signature if no mutation succeeded since, whose number the verdict names. |
| PolicyLoop.FinalizableExact | src/shiftedx_harness_proxy/service.py:664-675 | A call is a finalizable repeat iff it is permitted and not stalled, the receipt it repeats succeeded, no mutation awaits verification and no verification tool failed last. |
| PolicyLoop.RulesAreExact | src/shiftedx_harness_proxy/service.py:634-675 | What the loop asks of a batch and of an answer: no call with a verdict, all calls finalizable repeats, the numbers of repeating and stalling calls as sizes of sets, and the gate as a condition on the history. |
| PolicyLoop.TraceExtends | src/shiftedx_harness_proxy/service.py:249-262 | A further upstream call keeps the trace good: retries equal calls made, snapshots equal the counters, finalization is never left. |
| PolicyLoop.BlocksAreRemembered | src/shiftedx_harness_proxy/service.py:634-675 | As long as nothing was released, the block flag is set iff some batch of the request was withheld, and finalization is forced iff the latest withheld one was wholly finalizable repeats. |
| PolicyLoop.LastWithheldIsLast | src/shiftedx_harness_proxy/service.py:634-675 | No later batch than that one was withheld. |
| PolicyLoop.AnswerIsAllowed | src/shiftedx_harness_proxy/service.py:318-333 | An answer that ends a request follows no withheld batch, or one that was wholly finalizable repeats. |
| PolicyLoop.FlagTellsBlocks | src/shiftedx_harness_proxy/service.py:634-675 | The block flag that a request leaves behind says whether any batch of it was withheld. |
| PolicyLoop.FirstIsReleased | src/shiftedx_harness_proxy/service.py:249-353 | The released reply is the first releasable one. |
| PolicyLoop.RequestIsBounded | src/shiftedx_harness_proxy/service.py:249-353 | Calls and corrections are bounded, and retries run out only when the calls or the retries are used up, or two corrections were made and the last reply was no batch to read. |
| PolicyLoop.ConcludedFollows | src/shiftedx_harness_proxy/service.py:249-353 | The whole request read off its replies, without reference to the loop. A call is in finalization iff the request started there, or it is split and an earlier batch was wholly finalizable repeats. A batch is releasable iff it comes outside finalization with no call withheld, an answer iff it conforms and the latest batch before it, if any, was wholly finalizable repeats. Another call follows iff a call is left, the reply is a message that is not released, a retry is left, and it was a batch to read or fewer than two corrections were made. The last reply determines the outcome. Every snapshot counts the replies that were no batch to read, and the repeats and stalls of those that were. |
| PolicyLoop.CountsAreSaid | src/shiftedx_harness_proxy/service.py:407-421 | So do the counters that the request leaves behind. |
| PolicyLoop.ChatService.Converse | src/shiftedx_harness_proxy/service.py:249-353 | Whatever the model replies, the upstream calls - phase, retries, snapshotted and actual counters, releasability -, when another call follows, the outcome and the counters left are those that the replies determine, as ConcludedFollows states them: calls are at most min(max calls, max retries + 1), corrections at most two, finalization is never left, a withheld batch is followed by another call while calls and retries are left, and what is released is the first reply that passes its gates. If any batch was withheld, an answer is released only if the latest withheld batch was wholly finalizable repeats. |
| PolicyLoop.ChatService.Complete | src/shiftedx_harness_proxy/service.py:210-353 | The same for the whole request, from the phase of StartPhaseIff; Local Projection answers it iff its decision is eligible, and then with the count of the latest summary. |
| PolicyLoop.StartPhaseIff | src/shiftedx_harness_proxy/service.py:238-247 | A request has no phase iff it is not split, and starts in finalization iff it is split, forbids tools, is not degraded, its latest receipt succeeded, no mutation awaits verification and no verification tool failed last. |
| PolicyLoop.SnapshotTiming | src/shiftedx_harness_proxy/service.py:407-421 | The snapshot equals the harness counters. |
| Api.Chat | src/shiftedx_harness_proxy/api.py:359-455 | A request whose last reply raised an error fails with that error: it is passed on if it is a cancellation and answered otherwise. Malformed calls and exhausted retries fail as a proxy failure, an answer that could not be delivered with the error of its delivery; any other request delivers what the service released. Errors, expired deadlines and cancellations are counted as that error says, and however it ends the global counters grow by exactly the interventions of the request, once. What was asked upstream and its outcome are those of the replies; a released answer or projection has passed the terminal gate, and no call of a released batch is one to withhold. |
| Api.Conclude | src/shiftedx_harness_proxy/api.py:398-455 | Once the service is done: the request fails with the error of its outcome, or else of its ending, or is delivered, with the counters that go with that error; its interventions are counted once, and a projection unless its delivery failed before. |
| Api.Serve | src/shiftedx_harness_proxy/service.py:201-353 | From the executions of a transcript to the response: no answer or projection is released unless every successful mutation among them is followed by a successful verification, and no call of a released batch is denied or repeats an execution made after the last successful mutation. |
| Api.AnswerFollowsVerification | README.md:173 | If a harness rebuilt from executions lets an answer pass, every successful mutation among the executions was verified later. |
| Api.PassedCallIsNew | src/shiftedx_harness_proxy/service.py:645-672 | A call that passes the screen of a rebuilt harness repeats no execution without a successful mutation at or after it. |
| Api.Counters.HandleError | src/shiftedx_harness_proxy/api.py:271-303 | A proxy error adds the snapshotted interventions and one error; an expired deadline also counts as one, and a disconnected client as a cancellation. |
| Api.Counters.HandleCancellation | src/shiftedx_harness_proxy/api.py:445-450 | A cancellation adds the snapshotted interventions and one cancellation. |
| Api.Counters.Observe | src/shiftedx_harness_proxy/api.py:75-82 | A delivered result adds the interventions of its harness. |
| Api.ReplayResponse.StreamResponse | src/shiftedx_harness_proxy/api.py:200-228 | However delivery goes, exactly one outcome is reported, the right one, and admission is released exactly once. |
| Api.ReplayResponse.ReleaseOnce | src/shiftedx_harness_proxy/api.py:195-198 | Releasing is idempotent. |
| AdmissionProtocol.DropKeepsRate | src/shiftedx_harness_proxy/admission.py:170-171 | Dropping expired arrivals keeps the end of the charge log that still matters. |
| AdmissionProtocol.ChargeKeepsRate | src/shiftedx_harness_proxy/admission.py:172-182 | A charge below the limit keeps limit + 1 consecutive charges a window apart. |
| AdmissionProtocol.WindowHoldsAtMostLimit | src/shiftedx_harness_proxy/admission.py:166-182 | A log spaced like that has at most the limit of charges in every half-open window. |
| AdmissionProtocol.GatesKept | src/shiftedx_harness_proxy/admission.py:82-112 | Every event keeps free plus held global and upstream permits at their limits, and queued and active equal to the requests in those phases. |
| AdmissionProtocol.BudgetsKept | src/shiftedx_harness_proxy/admission.py:152-164 | Every event keeps free plus held principal permits at the limit, references equal to the requests of the key, and every request in flight on the budget the map holds, budgets re-created after pruning included. |
| AdmissionProtocol.StepMovesRates | src/shiftedx_harness_proxy/admission.py:166-199 | What an event does to the charges of any key is nothing, expiry, or expiry and one charge below the limit. |
| AdmissionProtocol.StepKeepsInv | src/shiftedx_harness_proxy/admission.py:64-199 | Every enabled event at a later clock reading keeps the whole invariant. |
| AdmissionProtocol.RunKeepsInv | src/shiftedx_harness_proxy/admission.py:64-199 | So does every run. |
| AdmissionProtocol.RunsAreSafe | src/shiftedx_harness_proxy/admission.py:64-199 | After any run of arrivals, grants, refusals, timeouts, cancellations and prunes: permits conserved, limits held, and every half-open window of every key within the rate limit. |
| AdmissionProtocol.IdleIsWhole | src/shiftedx_harness_proxy/admission.py:101-112 | With nothing in flight all gates are back at their initial values and every remaining budget is whole. |
| AdmissionProtocol.InFlightBudgetIsCurrent | src/shiftedx_harness_proxy/admission.py:184-199 | A request in flight works on the budget in the map, so its phase alone decides how it may leave. |
| AdmissionBudgets.SharesBudgetIff | src/shiftedx_harness_proxy/admission.py:152-161 | Two arrivals get the same budget key iff the mode is global, they have the same principal, or both have none. |
| AdmissionBudgets.RunsShareBudgets | src/shiftedx_harness_proxy/admission.py:152-161 | After any run, two requests in flight work on one budget object iff that holds of the principals they arrived with. |
| AdmissionBudgets.InFlightArrived | src/shiftedx_harness_proxy/admission.py:65-84 | Every request in flight has its latest arrival in the run. |
| AdmissionBudgets.RateLimitedIff | src/shiftedx_harness_proxy/admission.py:167-182 | A charge is refused iff the key made at least the limit of charges less than a window ago. |
| AdmissionBudgets.LeavingKeepsUsed | src/shiftedx_harness_proxy/admission.py:184-199 | When a request leaves, a budget is kept iff a request in flight has its key, a charge of the key is less than a window old, or it was last used less than a window ago, giving back its permit included. |
| AdmissionBudgets.LastUsedIs | src/shiftedx_harness_proxy/admission.py:20-182 | A budget was last used when it was made, when a charge was made or refused on it, or when a permit of it was given back. |
| AdmissionBudgets.RejectionsCounted | src/shiftedx_harness_proxy/admission.py:140-182 | An admission rejection is counted for every wait that timed out, a rate rejection for every refused charge, and neither for anything else. |
| Admission.AdmissionController.Arrive | src/shiftedx_harness_proxy/admission.py:79-84 | Entering changes the controller as the arrival event does, and hands over the shared budget if there is no principal or the mode is global, and else that of the principal. |
| Admission.AdmissionController.PrincipalAcquired | src/shiftedx_harness_proxy/admission.py:86-87 | Being granted a principal permit changes the controller as that event does. |
| Admission.AdmissionController.PrincipalFailed | src/shiftedx_harness_proxy/admission.py:88-91 | A failed or cancelled wait for the principal gives back the reference and nothing else. |
| Admission.AdmissionController.GlobalAcquired | src/shiftedx_harness_proxy/admission.py:92-99 | The charge admits iff the key has fewer than the limit of charges less than a window old; a refusal gives everything back. |
| Admission.AdmissionController.GlobalFailed | src/shiftedx_harness_proxy/admission.py:92-112 | A failed or cancelled global wait gives back permit and reference of the principal. |
| Admission.AdmissionController.BodyEnded | src/shiftedx_harness_proxy/admission.py:101-112 | The end of the body gives back everything held. |
| Admission.AdmissionController.SlotAcquired | src/shiftedx_harness_proxy/admission.py:114-131 | Taking an upstream slot is the slot event. |
| Admission.AdmissionController.SlotReleased | src/shiftedx_harness_proxy/admission.py:132-138 | Returning an upstream slot is the slot event. |
| Admission.AdmissionController.ChargeRate | src/shiftedx_harness_proxy/admission.py:166-182 | Expired arrivals are dropped, then the charge is appended or refused. |
| Admission.AdmissionController.PrunePrincipals | src/shiftedx_harness_proxy/admission.py:184-199 | Exactly the idle budgets are removed and the others swept, in whatever order they are visited. |
| Admission.AdmissionController.Handle | src/shiftedx_harness_proxy/admission.py:64-199 | Any enabled event is one of these methods, called with the key its request remembers from its arrival. |
| Admission.RunController | src/shiftedx_harness_proxy/admission.py:64-199 | A controller run through any legal sequence of events is in the state of the protocol after it, with permits conserved, limits held, every window of every key within the rate limit, and budgets shared by exactly the requests that arrived to share them. |
| Binomial.ChooseIsFactorialQuotient | src/shiftedx_harness_proxy/qualification_campaign_v2.py:324 | Pascal's rule computes n! / (k! (n - k)!). |
| Binomial.TailBounds | src/shiftedx_harness_proxy/qualification_campaign_v2.py:322-324 | For p of n discordant pairs, 0 < tail <= 2^n, with equality iff p = 0. |
| Binomial.TailSymmetry | src/shiftedx_harness_proxy/qualification_campaign_v2.py:322-324 | At least p heads or at least q tails among p + q - 1 flips: one or the other, never both. |
| Binomial.TailCountsOutcomes | src/shiftedx_harness_proxy/qualification_campaign_v2.py:315-334 | The tail counts the sequences of n fair flips with at least p heads, out of 2^n. |
| Binomial.ExactOneSidedMcNemar | src/shiftedx_harness_proxy/qualification_campaign_v2.py:315-334 | The computed fraction is that count over the number of sequences. |
| Binomial.SupportIsMonotone | src/shiftedx_harness_proxy/qualification_campaign_v2.py:370-373 | More proxy-only or fewer direct-only successes never lose support. |
| Binomial.SupportNeedsMajority | src/shiftedx_harness_proxy/qualification_campaign_v2.py:370-373 | At any level up to one half, support needs at least two more proxy-only than direct-only successes. |
| Binomial.SixUnopposedSuccesses | src/shiftedx_harness_proxy/qualification_campaign_v2.py:27 | Without direct-only successes support holds iff there are at least six proxy-only ones. |
| Statistics.ReportedRatioMatchesGate | src/shiftedx_harness_proxy/qualification_campaign_v2.py:344-399 | The ratio reported in ppm, rounded up, is within a threshold iff the exact gate passes. |
| Statistics.ReportedRateMatchesGate | src/shiftedx_harness_proxy/qualification_campaign_v2.py:337-341 | The delta reported in ppm, rounded down, reaches a threshold iff the exact gate passes. |
| Statistics.ReportedTimesCover | src/shiftedx_harness_proxy/qualification_campaign_v2.py:402-409 | A time, or a mean of times, is reported in the fewest whole microseconds that cover it. |
| Statistics.SortedIsInOrder | src/shiftedx_harness_proxy/qualification_campaign_v2.py:390-393 | Sorting puts the values in order. |
| Statistics.SortedIsPermutation | src/shiftedx_harness_proxy/qualification_campaign_v2.py:390-393 | Sorting keeps the values with their multiplicities. |
| Statistics.PercentileIsOrderStatistic | src/shiftedx_harness_proxy/qualification_campaign_v2.py:390-393 | At most index many values are below the percentile, and more than index many are not above it. |
| Statistics.ReportedPercentilesInOrder | src/shiftedx_harness_proxy/qualification_campaign_v2.py:382-387 | Percentiles of values within a bound, reported in whole microseconds, never cross and stay within the bound rounded up. |
| Statistics.P95IsPercentile | src/shiftedx_harness_proxy/qualification_campaign_v2.py:376-393 | Both ways to index a 95th percentile agree at every length. |
| Pairing.ValidateAndPair | src/shiftedx_harness_proxy/qualification_campaign_v2.py:187-217 | Fails with exactly the verdict of the scan, and otherwise pairs every key of the grid, in grid order, with the two rows of that key, field by field. |
| Pairing.ScanRow | src/shiftedx_harness_proxy/qualification_campaign_v2.py:196-204 | What is on file decides the flaw of the next row: invalid row, duplicate slot, changed deadline, in that precedence; a row without flaw is put on file. |
| Pairing.Scan | src/shiftedx_harness_proxy/qualification_campaign_v2.py:193-204 | The single pass with two dictionaries reports the first flaw of the rows and otherwise has them all on file. |
| Pairing.CollectPairs | src/shiftedx_harness_proxy/qualification_campaign_v2.py:206-217 | The walk over the grid never meets a missing arm or two deadlines. |
| Pairing.AcceptedIffComplete | src/shiftedx_harness_proxy/qualification_campaign_v2.py:187-204 | The scan accepts iff the rows are complete evidence, stated without any order. |
| Pairing.CompleteMeans | src/shiftedx_harness_proxy/qualification_campaign_v2.py:187-254 | Row by row, evidence is complete iff there are two rows for every key, each is on the grid, of one of the two arms, with positive times and within its deadline if it passed, and any two differ in case, lane, replicate or arm and agree on the deadline of a common case. A wrong number of rows is incomplete evidence. |
| Pairing.FirstBadRowDecides | src/shiftedx_harness_proxy/qualification_campaign_v2.py:193-204 | The first row that breaks this decides the failure: an invalid row, else a repeated slot, else a changed deadline. |
| Pairing.GridIsFull | src/shiftedx_harness_proxy/qualification_campaign_v2.py:190-216 | Pigeonhole: right count and no duplicate slot fill every slot of the grid. |
| Pairing.KeyIsPaired | src/shiftedx_harness_proxy/qualification_campaign_v2.py:210-215 | After a clean scan both arms of every key are on file with one deadline. |
| Pairing.KeyPosition | src/shiftedx_harness_proxy/qualification_campaign_v2.py:207-209 | The nested walk reaches each key at its mixed-radix position. |
| Pairing.PairingIgnoresOrder | src/shiftedx_harness_proxy/qualification_campaign_v2.py:187-217 | Permuted rows are accepted alike and give the same entries. |
| Pairing.ReachableIff | src/shiftedx_harness_proxy/qualification_campaign_v2.py:187-204 | With the right number of rows, some order gets a failure reported iff the rows show it: an invalid row, two valid rows of one slot, or two valid rows of one case in different slots with different deadlines. |
| Pairing.OrderIndependentIff | src/shiftedx_harness_proxy/qualification_campaign_v2.py:187-204 | The verdict is the same in every order iff the number of rows is wrong or they show at most one of these kinds. |
| Pairing.ReportedFailureDependsOnOrder | src/shiftedx_harness_proxy/qualification_campaign_v2.py:187-204 | A witness on the fixed design: the same 480 rows in two orders report two different failures. |
| Evaluator.SummarizePairs | src/shiftedx_harness_proxy/qualification_campaign_v2.py:257-312 | Fails iff there are no pairs; otherwise every count is the number of such rows, a loss adds up the wall of every valid row and the deadline of every other, and ratios and percentiles are those of the pairs. |
| Evaluator.ConditionalRatioDefined | src/shiftedx_harness_proxy/qualification_campaign_v2.py:350-357 | With a row valid on both sides the conditional ratio exists, so the diagnostic never fails internally. |
| Evaluator.TotalsAddUp | src/shiftedx_harness_proxy/qualification_campaign_v2.py:257-312 | So it is for every summary whose running totals are those of its pairs. |
| Evaluator.ConditionalP95Is | src/shiftedx_harness_proxy/qualification_campaign_v2.py:376-379 | The conditional 95th percentile of a side, among the n rows valid on both sides: at most (n - 1) * 95 / 100 of them took less time, and more took no more. |
| Evaluator.ReportedRatesMean | src/shiftedx_harness_proxy/qualification_campaign_v2.py:297-307 | The reported success delta reaches a limit iff the exact one does, and the reported ratio of the losses is within a limit iff the exact one is, proxy to direct. |
| Evaluator.ReportedMeansCover | src/shiftedx_harness_proxy/qualification_campaign_v2.py:305-306 | The reported means are the fewest whole microseconds that cover the mean loss of their side. |
| Evaluator.ReportedWallsCover | src/shiftedx_harness_proxy/qualification_campaign_v2.py:302-309 | So are the conditional 95th percentiles and the penalized percentiles, each of its own side. |
| Evaluator.LaneIsOccupied | src/shiftedx_harness_proxy/qualification_campaign_v2.py:75-93 | Complete evidence leaves no lane and no replicate without pairs. |
| Evaluator.JudgeLane | src/shiftedx_harness_proxy/qualification_campaign_v2.py:75-107 | The report of a lane carries its summary and those of its replicates, its gates, its replicate passes and the number of replicates that pass. Its conditional diagnostic is unavailable iff fewer than 22 rows are valid on both sides, and else passed iff the 95th percentile of the proxy is at most 1.25 times that of the direct arm, on the exact walls. |
| Evaluator.EvaluateQualification | src/shiftedx_harness_proxy/qualification_campaign_v2.py:53-184 | Succeeds iff the rows are complete evidence, and fails with the verdict of the scan; every number and every gate reported is the one stated on the matched pairs, and the conditional diagnostic passed iff that of every lane did, and is unavailable iff that of some lane is. |
| Evaluator.SummaryPercentilesInOrder | src/shiftedx_harness_proxy/qualification_campaign_v2.py:257-312 | In every summary of sound pairs, p50 <= p95 <= p99 <= the largest deadline of the pairs, for both arms, as reported. |
| Evaluator.EvaluatedPercentilesInOrder | src/shiftedx_harness_proxy/qualification_campaign_v2.py:53-159 | So it is in the pooled summary, every lane summary and every replicate summary of an evaluation of complete evidence. |
| Evaluator.V2DesignIsProper | src/shiftedx_harness_proxy/qualification_campaign_v2.py:20-22 | The fixed design has 240 keys and two distinct lanes, and meets what the evaluation requires. |
| Promotion.PromotionIsMonotone | src/shiftedx_harness_proxy/qualification_campaign_v2.py:109-140 | Pairs at least as good for the proxy and at most as good for the direct arm never lose the promotion, through pooled, lane, replicate, loss and McNemar gates. |
| Promotion.SafetyMeans | src/shiftedx_harness_proxy/qualification_campaign_v2.py:116-123 | The safety gate, over the rows: none in which the proxy alone broke a critical rule, and the proxy at most five points behind in valid rows, in the pool and in every lane. |
| Promotion.EfficacyMeans | src/shiftedx_harness_proxy/qualification_campaign_v2.py:109-132 | The efficacy gate: ten points ahead in the pool, in every lane not behind, in the lane and in at least three replicates of it, and the exact test at 2.5 percent on the rows that only one arm passed. |
| Promotion.TimeMeans | src/shiftedx_harness_proxy/qualification_campaign_v2.py:133-140 | The time gate: the rows cost the proxy at most 80 percent of what they cost the direct arm in the pool, and 90 in every lane and in at least three replicates of it. |
| Promotion.PromotionMeans | src/shiftedx_harness_proxy/qualification_campaign_v2.py:109-140 | The safety margins never decide a promotion: it passes iff no row is critical for the proxy alone and the other two gates pass. |
| Promotion.BetterRowsStayPromoted | src/shiftedx_harness_proxy/qualification_campaign_v2.py:53-184 | The same from rows: proxy rows that become valid or faster and direct rows that become invalid or slower keep rows accepted and promotion passed. |
| Promotion.WholeIsSumOfParts | src/shiftedx_harness_proxy/qualification_campaign_v2.py:64-93 | Every count and loss of a scope is the sum over any scopes that partition it. |
| Promotion.ScopesPartition | src/shiftedx_harness_proxy/qualification_campaign_v2.py:75-93 | Lanes partition the pool, and replicates partition a lane. |
| Promotion.LanesPassSoPoolPasses | src/shiftedx_harness_proxy/qualification_campaign_v2.py:75-93 | In paired evidence, a ratio threshold that all lanes pass, the pool passes. |
| Promotion.PartsPassSoWholePasses | src/shiftedx_harness_proxy/qualification_campaign_v2.py:344-347 | A ratio threshold that all parts pass, the whole passes. |
| Reconciliation.AttemptPartitionMatches | src/shiftedx_harness_proxy/qualification_reconciliation.py:776-829 | Accepts iff the ledger is valid and can be cut, in order and without gap or overlap, into one turn per row that the row describes. |
| Reconciliation.CheckRow | src/shiftedx_harness_proxy/qualification_reconciliation.py:782-829 | One row is accepted iff it fits at the next attempt, and then the walk goes on behind its attempts. |
| Reconciliation.WalkIffTiles | src/shiftedx_harness_proxy/qualification_reconciliation.py:782-829 | The walk with one counter accepts exactly the ledgers that the rows tile. |
| Reconciliation.TilesIff | src/shiftedx_harness_proxy/qualification_reconciliation.py:776-829 | In closed form: the rows add up to the ledger, and each row, of the attempts behind those of the rows before it, says their range, how many there are and how many have a status from 200 to 299, or none, or is a proper row of a Local Projection. |
| Reconciliation.ValidLedgerIff | src/shiftedx_harness_proxy/qualification_reconciliation.py:832-853 | A ledger is valid iff its attempts are numbered from one, each with a digest, a known phase, and a status from 100 to 599 if any. |
| Reconciliation.ColumnsCount | src/shiftedx_harness_proxy/qualification_reconciliation.py:823-959 | The success column is the number of attempts with status 200 to 299, a phase column the number of attempts of the phase. |
| Reconciliation.PhaseCountsMatch | src/shiftedx_harness_proxy/qualification_reconciliation.py:919-959 | Accepts iff each row's phase totals are those of the turn it selects and its retries are its attempts less its distinct phases. |
| Reconciliation.CountersCountPhases | src/shiftedx_harness_proxy/qualification_reconciliation.py:956-958 | The three counters of the checker find the size of the set of phases that the producer uses. |
| Reconciliation.AcceptedTotals | src/shiftedx_harness_proxy/qualification_reconciliation.py:665-702 | Accepted rows add up to the ledger: attempts, 2xx answers, and with the phase check acquisitions and finalizations. |
| ObserverCursor.ModelBoundaryObserverCursor.BeginTurn | src/shiftedx_harness_proxy/qualification_contract.py:1134-1143 | A correlated turn needs that none is active, any other that nothing is left over. |
| ObserverCursor.ModelBoundaryObserverCursor.ConsumeTurn | src/shiftedx_harness_proxy/qualification_contract.py:1145-1171 | The turn is the rest of the ledger, or the unconsumed records of the digest; it fails iff the ledger shrank or a required record is missing, and then changes nothing; the consumed numbers stay those of the turns. |
| ObserverCursor.ModelBoundaryObserverCursor.RequireDrained | src/shiftedx_harness_proxy/qualification_contract.py:1173-1179 | Passes iff no digest is active and every record of the ledger is in some turn. |
| ObserverCursor.NextTurnContinues | src/shiftedx_harness_proxy/qualification_contract.py:1155-1166 | Without correlation the turns put end to end are the ledger up to the cursor, and the next turn carries it on as the accounting needs. |
| ObserverCursor.MatchingExact | src/shiftedx_harness_proxy/qualification_contract.py:1158-1162 | A correlated turn holds exactly the unconsumed records of its digest. |
| ObserverCursor.CorrelatedTurnIsNew | src/shiftedx_harness_proxy/qualification_contract.py:1158-1165 | Correlated turns take no record twice. |
| ObserverCursor.CorrelatedTurnContinuesIff | src/shiftedx_harness_proxy/qualification_contract.py:1158-1166 | While the turns are the ledger up to a point, a correlated turn carries it on, as the accounting needs, iff no record of the digest comes after one without it; it is then the next stretch of the ledger. |
| ObserverCursor.PlainTurnIsNewIff | src/shiftedx_harness_proxy/qualification_contract.py:1155-1166 | A turn without correlation takes no record twice iff no consumed record lies behind the cursor. |
| ObserverCursor.BegunPlainTurnIsNew | src/shiftedx_harness_proxy/qualification_contract.py:1142-1156 | A plain turn takes none twice if everything consumed was there when it was begun. |
| ObserverCursor.PlainTurnCanRepeat | src/shiftedx_harness_proxy/qualification_contract.py:1134-1171 | A witness through the methods of the cursor: a correlated turn between the start and the end of a plain one, and both take the same record. |
| Accounting.ProxyRequestAccounting.RecordSuccess | scripts/run_paired_agentic_trial.py:645-667 | Refused iff the accounting contradicts the observer; otherwise one row for the turn, and the rows stay reconcilable. |
| Accounting.ProxyRequestAccounting.RecordFailure | scripts/run_paired_agentic_trial.py:669-699 | One row with the outcome of the error and no interventions, and the rows stay reconcilable. |
| Accounting.NewRowDescribes | scripts/run_paired_agentic_trial.py:701-732 | A row made from a turn that carries the ledger on accounts for that turn, its phases included, and is a valid ledger row. |
| Accounting.RecordedRowsReconcile | src/shiftedx_harness_proxy/qualification_reconciliation.py:769-959 | Whatever was recorded in whatever order, the rows pass the sequence, partition, phase and ledger-scalar checks against the turns put end to end. |
| ObserverSession.ConsumeCall | scripts/run_paired_agentic_trial.py:973-990 | The turn of a call is consumed as the ledger has it, whether or not the records it needs are missing. |
| ObserverSession.RecordCall | scripts/run_paired_agentic_trial.py:896-946 | Every consumed turn gets its row, unless the accounting of its answer is refused and the turn is missing or invalid as well. The row repeats the accounting of the answer, or tells of the failure: as observed, or else as its error says. |
| ObserverSession.CompleteProxy | scripts/run_paired_agentic_trial.py:872-946 | One call keeps cursor, accounting and ledger abreast and leaves the row that tells of it, iff nothing is left over when a plain call begins and a refused answer is valid and has its records. |
| ObserverSession.TurnKeepsAbreast | src/shiftedx_harness_proxy/qualification_contract.py:1145-1166 | A turn in order, plain or correlated, continues the ledger for the accounting and keeps the turns a prefix of it. |
| ObserverSession.TurnIsStretch | src/shiftedx_harness_proxy/qualification_contract.py:1155-1166 | The turn of a call in order is the next stretch of the ledger. |
| ObserverSession.DrainedIsWhole | src/shiftedx_harness_proxy/qualification_contract.py:1173-1179 | Turns in order that leave nothing over are the ledger itself. |
| ObserverSession.RunSession | scripts/run_paired_agentic_trial.py:872-946 | Over a whole session of calls in order, all plain or all correlated: it is complete iff every call begins and leaves a row; each row tells of the call in its place and of the records that the call added; and with a row for every call, the ledger is drained iff the turns put end to end are it, and then the rows pass every reconciliation check against the ledger itself. |
| RunExpansion.AssertProxyRunExpansion | src/shiftedx_harness_proxy/qualification_contract.py:1491-1514 | Accepts iff an eager expansion exists, equivalently iff blocks <= items <= attempts and no item disagrees with the attempt at its place; returns the number of proxy attempts beyond the direct ones, and otherwise the failure that a disagreement or its absence means. |
| RunExpansion.WalkRuns | src/shiftedx_harness_proxy/qualification_contract.py:1491-1514 | The nested index loops end as the recursive single pass does. |
| RunExpansion.GreedyIsDecidedByPlaces | src/shiftedx_harness_proxy/qualification_contract.py:1491-1514 | The single pass accepts iff blocks <= items <= attempts and every item agrees with the attempt at its place, computed from block starts alone; it reports a contract mismatch iff some item disagrees. |
| RunExpansion.GreedyIffEager | src/shiftedx_harness_proxy/qualification_contract.py:1491-1514 | The single pass accepts iff some expansion has every run go on until the value changes or one attempt is left per later item. |
| RunExpansion.GreedyIsEager | src/shiftedx_harness_proxy/qualification_contract.py:1491-1514 | What the pass finds is an expansion: one non-empty constant run per direct item, each matching its item. |
| RunExpansion.SeparatedGreedyIsComplete | src/shiftedx_harness_proxy/qualification_contract.py:1491-1514 | If no proxy value agrees with two neighbouring direct items, every expansion is accepted. |
| RunExpansion.UniformRunsAccepted | src/shiftedx_harness_proxy/qualification_contract.py:1480-1514 | Any number of identical acquisitions followed by one finalization is accepted. |
| RunExpansion.GreedyCanMissAnExpansion | src/shiftedx_harness_proxy/qualification_contract.py:1505-1511 | A witness in the tool-required shape: an expansion that the pass rejects. |
| CampaignChain.BindingInvertsRequest | src/shiftedx_harness_proxy/qualification_runtime.py:740-771 | A request binds iff it is the request of its sequence number: the two numberings are inverse. |
| CampaignChain.WrittenEventLoadsIff | src/shiftedx_harness_proxy/qualification_campaign.py:305-326 | The event of a valid result loads again iff the result does not carry the reserved category. |
| CampaignChain.ReservedCategoryIsAllowed | src/shiftedx_harness_proxy/qualification_campaign.py:1071-1102 | Result validation lets the reserved category through. |
| CampaignChain.LoadableIsLinked | src/shiftedx_harness_proxy/qualification_campaign.py:296-347 | Every event of a loadable directory points back to the digest of the one before. |
| CampaignChain.HeadDeterminesChain | src/shiftedx_harness_proxy/qualification_campaign.py:327-348 | Under an injective digest, linked chains with the same last digest are equal, event by event. |
| Campaign.ReadChain | src/shiftedx_harness_proxy/qualification_campaign.py:270-355 | Any directory whatever is accepted iff its names, events, heads and instances are what the evidence of its stages says, and the instances used are collected. |
| Campaign.CampaignDirectory.RepairHead | src/shiftedx_harness_proxy/qualification_campaign.py:335-347 | The one head that a crash may have left out is written. |
| Campaign.CampaignDirectory.ObtainResult | src/shiftedx_harness_proxy/qualification_campaign.py:187-236 | A partial or complete stage is taken as found, an absent one is started when the runtime is ready; what comes out and what is left are the functions of the directory and the surroundings about which the lemmas speak. |
| Campaign.CampaignDirectory.WriteEvent | src/shiftedx_harness_proxy/qualification_campaign.py:382-395 | Writes the event, then its head, as far as the process lives. |
| Campaign.CampaignDirectory.RecordResult | src/shiftedx_harness_proxy/qualification_campaign.py:188-262 | A result or a partial stage becomes one event, which holds what the lemmas of CampaignEvents say, and its head, and the outcome behind the last one, unless it reuses an instance or lacks evidence. |
| Campaign.CampaignDirectory.CompleteCampaign | src/shiftedx_harness_proxy/qualification_campaign.py:451-511 | The outcome names the last digest and the event count, is written once and only confirmed afterwards. |
| Campaign.CampaignDirectory.Advance | src/shiftedx_harness_proxy/qualification_campaign.py:166-265 | From any directory and to any crash point, the new directory and the answer are those of the function Advanced, about which CampaignEvents, CampaignHistory and CampaignLoading speak. |
| Campaign.CampaignDirectory.Live | src/shiftedx_harness_proxy/qualification_campaign.py:147-265 | Any sequence of advances and outside changes to stage directories leaves the directory that DiskAfter says. |
| CampaignHistory.AdvanceParts | src/shiftedx_harness_proxy/qualification_campaign.py:166-265 | Every advance of any directory is made of at most four parts in order: heads repaired, the next stage started, an event that follows the chain written, the outcome written. |
| CampaignHistory.AdvanceIsSound | src/shiftedx_harness_proxy/qualification_campaign.py:166-265 | Wherever it dies, an advance keeps a sound directory sound and only lets it grow, by at most one event and one run, behind repaired heads. |
| CampaignHistory.WritingIsSound | src/shiftedx_harness_proxy/qualification_campaign.py:253-261 | A new event with an unused instance behind passed ones keeps the directory sound, with or without its head. |
| CampaignHistory.HistoryOnlyGrows | src/shiftedx_harness_proxy/qualification_campaign.py:166-265 | Over any history of advances, crashes and outside changes from a sound directory: every directory is sound, events, heads and runs only grow, the outcome stays, and the first event that did not pass is the last. |
| CampaignHistory.StartsIff | src/shiftedx_harness_proxy/qualification_campaign.py:186-229 | An advance starts exactly the next stage, and does so iff it loads, outlives the repair, is not stopped or full, the stage reads as absent and the runtime is ready. |
| CampaignHistory.StartedAgainIff | src/shiftedx_harness_proxy/qualification_runtime.py:1078-1095 | A stage started before is started again, once the runtime is ready, iff all that its starts left reads as absent. |
| CampaignHistory.StartedTwice | src/shiftedx_harness_proxy/qualification_runtime.py:1086-1092 | A witness: two advances of an empty directory start the preflight twice. |
| CampaignHistory.NeverRerun | src/shiftedx_harness_proxy/qualification_campaign.py:187-262 | Over any history, a stage is not started as long as its directory shows something. |
| CampaignHistory.StartedAtMostOnce | src/shiftedx_harness_proxy/qualification_campaign.py:187-262 | Where every start leaves something and nothing disappears, no stage of a history is started twice. |
| CampaignHistory.AdvanceAppends | src/shiftedx_harness_proxy/qualification_campaign.py:187-261 | An advance that reaches a stage fit to become an event appends exactly that event, and its head if it lives on; any other advance appends nothing. |
| CampaignHistory.AdvanceConcludes | src/shiftedx_harness_proxy/qualification_campaign.py:166-265 | Every answer of an advance is true of the directory it leaves, and an advance with three writes left behind the repair does not die. |
| CampaignHistory.FullChainCompletes | src/shiftedx_harness_proxy/qualification_campaign.py:451-511 | A full chain that did not stop is completed by an advance with a gate verdict and two writes, unless another outcome is there. |
| CampaignHistory.FullChainPassed | src/shiftedx_harness_proxy/qualification_campaign.py:459-512 | A full chain that did not stop has 13 or 17 passed events on as many distinct model instances. |
| CampaignHistory.EqualHeadsEqualChains | src/shiftedx_harness_proxy/qualification_campaign.py:382-395 | Under an injective digest, sound directories whose last heads agree hold the same events. |
| CampaignHistory.ReloadsUnlessReserved | src/shiftedx_harness_proxy/qualification_campaign.py:296-355 | After an event is written, with or without its head, the directory loads again iff the result's category is not the reserved one. |
| CampaignLoading.CampaignsAreSound | src/shiftedx_harness_proxy/qualification_campaign.py:147-265 | Whatever happens to a campaign from the empty directory on, its directories are sound and only grow. |
| CampaignLoading.SoundLoadsIff | src/shiftedx_harness_proxy/qualification_campaign.py:270-355 | A sound directory loads iff the evidence of the stages yields every event again. |
| CampaignLoading.HonestCampaignsLoad | src/shiftedx_harness_proxy/qualification_campaign.py:147-355 | If runs leave complete evidence of what they return, evidence stays and no result uses the reserved category, then every directory of a campaign loads, whatever crashes and changes it went through. |
| CampaignLoading.DueIffFit | src/shiftedx_harness_proxy/qualification_campaign.py:187-253 | In a directory that loads and has not stopped, the next stage becomes an event iff it is partial or has a usable result; the digest of its predecessor is always there. |
| CampaignLoading.HonestCampaignsAdvance | src/shiftedx_harness_proxy/qualification_campaign.py:166-265 | In such a campaign an advance that finds a fit stage, with three writes to make, adds its event and head, and the directory loads again. |
| CampaignLoading.StuckNeverLoads | src/shiftedx_harness_proxy/qualification_campaign.py:302-320 | With the event of a result that carries the reserved category no directory loads, whatever the stages show, and an advance raises and changes nothing. |
| CampaignLoading.StuckForever | src/shiftedx_harness_proxy/qualification_campaign.py:302-320 | From such a directory on, nothing but the stage directories ever changes. |
| CampaignLoading.ReservedResultSticks | src/shiftedx_harness_proxy/qualification_campaign.py:241-253 | A result with the reserved category leads there as soon as its event is written. |
| CampaignEvents.AdvanceRecordsResult | src/shiftedx_harness_proxy/qualification_campaign.py:187-262 | An advance that obtains an acceptable result, found complete or returned by the run it starts, appends one event with the sequence, slot and stage that are next, manifest and campaign of the specification, and the digest of the event before; it holds status, category, outcome, instance and reconciliation of the result, in v2 its model identity and, for a score-proxy stage, the outcome of the direct stage just before. Its head holds its digest. The answer is that the campaign failed unless the result passed, and before the last stage that the stage completed if it did. |
| CampaignEvents.AdvanceRecordsPartial | src/shiftedx_harness_proxy/qualification_campaign.py:168-193 | A partial stage appends, in the same place, a failed event with the reserved category and nothing else, and the campaign fails. |
| CampaignEvents.LastStageCompletes | src/shiftedx_harness_proxy/qualification_campaign.py:254-262 | The last stage, passed, completes the campaign: the outcome holds the digest of its event, 13 or 17 events and the verdict of the gate, which is the answer. |
| CampaignEvents.AdvanceRefuses | src/shiftedx_harness_proxy/qualification_campaign.py:195-240 | An advance that reaches a stage it cannot record says why: a restart is required iff a stage other than the first is to be started, the runtime is not ready and names no instance; contradictory evidence, an unusable instance, a failed run, an invalid result, a result of another instance and a reused instance have their errors. |
| CampaignEvents.AdvanceOfStopped | src/shiftedx_harness_proxy/qualification_campaign.py:166-186 | A campaign that stopped answers that it failed and stays as it is, but for a missing head. |
| CampaignEvents.LoadedEventsHold | src/shiftedx_harness_proxy/qualification_campaign.py:296-347 | In a directory that loads, every event is in its place, and is a partial record or holds the acceptable result that its stage shows. |
| CampaignEvents.AcceptableIsUsable | src/shiftedx_harness_proxy/qualification_campaign.py:1071-1130 | Which results may be recorded, field by field. |
| Replay.ReplayCompletion | src/shiftedx_harness_proxy/streaming.py:40-113 | Succeeds iff the completion is well formed and its whole stream fits the byte limit, and then returns that stream; it is refused for size iff its header is well formed and the limit is passed before any malformed choice is met, or by the whole stream, and as malformed otherwise. |
| Replay.WellFormedIff | src/shiftedx_harness_proxy/streaming.py:43-86 | What is well formed: a non-empty id and model, and at least one choice, each with a message, an integer index, a non-empty finish reason, and tool calls that are objects, if any. |
| Replay.AppendChoices | src/shiftedx_harness_proxy/streaming.py:66-100 | The loop stops at the first malformed choice or when the limit is passed, and otherwise prints two events per choice. |
| Replay.Append | src/shiftedx_harness_proxy/streaming.py:54-64 | The running total is the size of the chunks, and an event is printed iff it still fits. |
| Replay.OutgrownEarly | src/shiftedx_harness_proxy/streaming.py:58-63 | A stream over the limit part way is over the limit as a whole. |
| ServerSentEvents.FramesAreReadBack | src/shiftedx_harness_proxy/streaming.py:56 | Splitting framed payloads by section 9.2.6 of the WHATWG HTML Standard gives back exactly those payloads, in order. |
| ServerSentEvents.StreamIsReadBack | src/shiftedx_harness_proxy/streaming.py:106-113 | From the bytes of a replay the reader recovers the printed events and then the end marker, which occurs once and last, and so the client has exactly the events of the completion. |
| ServerSentEvents.ReplayToClient | src/shiftedx_harness_proxy/streaming.py:40-113 | Whatever completion is not refused reaches the client event by event. |
| ServerSentEvents.WriterAndReaderExist | src/shiftedx_harness_proxy/streaming.py:56 | For any events there are a writer and a reader as the reading back supposes. |
| ReplayClient.ReplayRoundTrip | src/shiftedx_harness_proxy/streaming.py:66-100 | The client sees as many choices as there are iff their indices are distinct, and then each comes back as its delta with its own finish, once. |
| ReplayClient.DeltaIsMessage | src/shiftedx_harness_proxy/streaming.py:78-91 | The delta has exactly the non-null fields of the message, unchanged but for the numbering of tool calls. |
| ReplayClient.CallsAreMerged | src/shiftedx_harness_proxy/streaming.py:83-89 | At every place the client holds all tool calls filed there, merged in order; a call is filed under its own index or its position. |
| ReplayClient.CallsAreRebuiltIff | src/shiftedx_harness_proxy/streaming.py:83-89 | Every tool call comes back at its position and nothing else does, iff the places are distinct positions of the list and each holds an equal call. |
| ReplayClient.AllCallsAreSeenIff | src/shiftedx_harness_proxy/streaming.py:83-89 | The client sees as many calls as there are iff all have places, and distinct ones. |
| ReplayClient.PlainCallsAreRebuilt | src/shiftedx_harness_proxy/streaming.py:83-89 | Calls without an index of their own always come back at their positions. |
| ReplayClient.ForeignIndexMergesCalls | src/shiftedx_harness_proxy/streaming.py:87-89 | A witness: any second call that brings index 0 is merged into the first, and one call is lost. |
| ReplayClient.ClientSeesSent | src/shiftedx_harness_proxy/streaming.py:92-105 | The client reads two parts per choice and none from the usage event. |
| ReplayDelivery.MessageComesBackIff | src/shiftedx_harness_proxy/streaming.py:78-91 | The fields of a message that are not null come back from its delta unchanged, and its tool calls do iff they are placed as they stand. |
| ReplayDelivery.ComesBackIff | src/shiftedx_harness_proxy/streaming.py:66-105 | All choices come back, each with its message and its finish reason once, iff their indices are distinct and the tool calls of each are placed as they stand. |
| ReplayDelivery.EventsCarryAll | src/shiftedx_harness_proxy/streaming.py:92-134 | Every event names the completion and its model, is a chat completion chunk, and carries exactly the optional fields the completion has; there are two with one choice for every choice, and behind them, iff the usage was asked for and is an object, one with the usage and no choices. |
| ReplayDelivery.Deliver | src/shiftedx_harness_proxy/streaming.py:40-113 | From the completion to the bytes and from the bytes to what the client holds: what is not refused comes back whole iff that is so, and the events received carry what they must. |

## Left out

- Admission.AdmissionController.Arrive: budgets are values in the map that carry an identity, not shared heap objects; that a request works on the budget in the map is stated by comparing identities.
- AdmissionProtocol.RunsAreSafe: permit accounting only; a cancellation that strikes inside the semaphore library after the permit was granted, fairness and real-time scheduling are not modelled.
- Campaign.CampaignDirectory.Advance: the kinds of load failure are one error; file modes, links, the lock, canonical bytes and the policy-benefit gate (an input) are not modelled.
- Campaign.CampaignDirectory.RepairHead: the last head is repaired after all checks of the chain, not before the reuse check of the last event; no directory that advances lead to tells the two apart.
- CampaignLoading.HonestCampaignsAdvance: whether a start returns a result, and which, is an input; that a stage ever becomes fit is not promised.
- CampaignChain.BindingInvertsRequest: run identifiers and directory paths are not part of a request.
- Evaluator.EvaluateQualification: Python's 28-digit decimal rounding of long sums is not modelled; summaries without their arithmetic-only totals and the echo of the contract are left out.
- Pairing.ValidateAndPair: checks of Python types at run time are left out, the field types being given; the design (30 cases, two lanes, four replicates) is a parameter.
- Harness.MatchesType: a type name the contract does not support matches no value here; core.py line 130 raises.
- PolicyLoop.ChatService.Complete: building outbound payloads, message texts, telemetry and the pairing of the latest tool result are left out; a request says what its latest result is, and whether the transcript is degraded or holds an unresolved block.
- Api.Counters.HandleError: the counters of denied policy extensions, untrusted cache namespaces and unsupported phase schemas, which single error codes raise, are left out.
- Accounting.ProxyRequestAccounting.RecordSuccess: rows rebuilt later from server captures (`qualification_timing.py`) are not part of this model.
- RunExpansion.AssertProxyRunExpansion: the comparison of fingerprints is any relation, and the labels of a mismatch are left out.
- Reconciliation.AttemptPartitionMatches: run-time type checks are left out; the delta checks against metrics and the model-operation check are sums over the totals of AcceptedTotals.
- ServerSentEvents.StreamIsReadBack: the byte order mark and the event, id and retry fields of section 9.2.6, which the serialiser never writes, are left out.
- `prepare_replay_request`, `ToolRoles.with_annotation` and `ProvisionalClientTimingLedger`: single branches and appends that would only add easy members.
- HTTP serving, transports, processes, git, credentials, CORS, settings and manifest parsing: foreign calls and single-branch checks without a local invariant.
- The v1 policy-benefit gate, the exporter, the operational matrix and the latency scripts: plumbing and field validation.
