# Kernel verification

A Dafny model of the Teams kernel and of the crash-safe loops around it, with proofs of what
they keep over whole runs. The project stands beside the repository; `dafny verify
dfyconfig.toml` checks all of it.

## What is modelled

| file | component |
|---|---|
| `EventSourcing.dfy`, `EventRuns.dfy`, `EventFold.dfy`, `StateHistory.dfy` | the state `evolveState` computes, the state `FoldAggregate` rebuilds, when they agree, and what either is in terms of the commands |
| `Journal.dfy`, `AgentRun.dfy`, `AgentRunBounds.dfy`, `AgentDecisions.dfy` | the agent turn journal, `replay`, and runners that stop and restart anywhere |
| `Effects.dfy`, `EffectProgress.dfy`, `Utf8.dfy`, `EndToEnd.dfy` | the durable effect ledger, the mutation gateway, and both loops together |
| `Dag.dfy`, `Timing.dfy` | graph validation; interval union, peak parallelism and workflow timing |
| `Authorization.dfy` | grants and chains of delegations |
| `Release.dfy`, `Continuity.dfy`, `HumanInteraction.dfy` | three durable state machines and the policy models beside them |
| `ReleaseEvents.dfy`, `ContinuityEvents.dfy`, `InteractionEvents.dfy` | exactly which events each of them accepts and what each event leaves |
| `Review.dfy`, `BoundedReview.dfy`, `ReviewHistory.dfy` | the review join and bounded completion reviews |
| `ExecutionControl.dfy`, `ExecutionProgress.dfy` | concurrent start, stop and reconcile calls over a compare-and-swap store |
| `Evidence.dfy`, `EvidenceRuns.dfy`, `EvidenceFacts.dfy`, `EvidenceAudit.dfy` | the content-addressed registry, its assessments and its hash-chained audit log |
| `Assignment.dfy`, `AssignmentOrder.dfy`, `AssignmentFields.dfy`, `Lifecycle.dfy` | the assignment planner, what it leaves to the sort and what each of its answers means; the lifecycle tables |
| `Ids.dfy`, `Orders.dfy` | identifiers and their validity; Go's string order, `sort.Slice`, permutations |

Conventions. A JSON payload is the datatype it decodes to, and a payload of another shape is
refused. Times are integers, `None` standing for the zero time; revisions, epochs and counters
are unbounded. UUIDs, digests and actor names have the validity rule of their regular
expression. SHA-256 is a function parameter, and a lemma says so where it needs it injective.
`sort.Slice` is a method that promises some sorted permutation, so nothing rests on how it
orders ties. Maps are ranged over in an arbitrary order. A snapshot that the source clones and
then updates is a value here; a registry, a projection, a journal and the aggregate being folded
are classes. Protocols that talk to a store, an engine, a model, a host or a ledger are state
machines that take one external operation at a time; what the outside answers, and where a
process stops, is part of the action, so every theorem about runs is about every interleaving
and every crash.

## What the code does that its name does not say

Each of these is proved, with the exact condition under which the expected property holds.

* Folding the events of a run gives the evolved state if and only if no reopening drops an
  owner. After one that does, folding keeps showing the old owner and becomes an error at the
  next acquisition; it never agrees again (`EventRuns.FoldMatchesIff`, `FoldAfterDrop`).
* A system aggregate's continuity record is left behind by any accepted command that does not
  write it. Outside ACTIVE it then accepts nothing ever again: a correction recorded during a
  suspension keeps admission closed for good (`EventRuns.CorrectionWedges`). After any run that
  left admission closed, further commands can reopen it if and only if the record is level with
  the aggregate's revision (`EventRuns.ReopensIff`).
* Reconfiguring continuity keeps power-epoch fencing for all continuations if and only if the
  new epoch is above every retired one and not below the open one
  (`Continuity.ReconfigurationFencedIff`); a run that mixes events and reconfigurations is fenced
  throughout if and only if each of them rises so (`FencedIffRising`).
* A NO_RELEASE_REQUIRED plan can be finalized twice; it follows the abstract model exactly while
  it is PLANNED (`Release.NoReleaseRefinesIffPlanned`). Every CODE plan a command can create has a
  run to READY_FOR_ACCEPTANCE (`Release.EveryPlanCompletes`), but a fully merged one with the
  wrong last tree accepts no event at all (`Release.FullyMergedMovesIffExpectedTree`), and such a
  plan is reached from every plan that can be qualified (`Release.WrongTreeReachable`).
  `ReleasePlanFromCreatePayload` by itself also accepts a CODE plan without a required profile,
  which can never be qualified (`Release.CompletableIffProfiles`); the schema of the creation
  payload asks for at least one, so no command creates such a plan.
* A journal is accepted by replay if and only if no call id occurs twice in it; some run appends a
  reused id, after which no runner moves (`AgentRunBounds.AcceptedIffFresh`, `ReusedIdPoisons`).
  The failed submissions counted are all of them exactly when each has an error text
  (`AllCountedIff`); with empty texts runs leave any number (`EmptyErrorsUnbounded`).
* The audit log is accepted by a fresh projection if and only if every time it covers has a JSON
  form: in the years 0 to 9999, in a zone less than 24 hours from UTC
  (`EvidenceAudit.AuditAcceptedIff`, `LateOrFarBreaksAudit`).
* An interaction can be closed if and only if it is SATISFIED with at most 64 responses
  (`HumanInteraction.ClosableIff`). The schema of the opening payload admits at most 64 recipients,
  so every SATISFIED interaction a command opened can be closed
  (`HumanInteraction.SmallAlwaysClosable`).
* The results of a review branch are bounded by rounds only between changes of role. Over any list
  of results that is otherwise acceptable, all are accepted if and only if the round rises wherever
  the role stays (`BoundedReview.AcceptedIffRoundsRise`). So the results of a run are at most the
  rounds of the roles that answer, once for each change of role and once more (`ResultsBounded`);
  a validator and an adjudicator in turn are accepted for as long as there are new event ids
  (`AlternatingUnbounded`); and
  policy timeouts have no limit of the review but only the largest round a payload can name, 1000,
  which they can fill (`OneRoleBounded`, `TimeoutsFillRounds`).
* With several dependencies on one aggregate the assignment decision may depend on how the sort
  orders them. It does not if and only if the dependency loop is not reached, or the dependencies
  in the first such group it gets to are all ill-formed, or all well-formed with one evidence event
  and all blocking or none (`AssignmentOrder.DeterminedIff`).
* Error truncation indexes before the start of the text exactly when its first 4097 bytes are
  all continuation bytes (`Utf8.Truncate`, `StrayTailsRunOff`).

## Model

| member | source | states |
|---|---|---|
| `EventSourcing.TablesAgree` | kernel/fold.go:154-194 | through the catalogue's command-to-event pairing, the lifecycle, ownership and synthetic-event tables of the two code paths are the same table |
| `EventRuns.CreationAgrees` | kernel/fold.go:21-52 | folding the first event gives the state the creation command produced |
| `EventRuns.CoreAgrees` | kernel/fold.go:69-143 | for every accepted command, folding its event does to phase, condition, epoch, scope, role, participant, interaction and continuity what evolving did |
| `EventRuns.StepAgrees` | kernel/evaluator.go:572-663 | one event folds to the evolved state, except that it keeps an owner the reopening dropped |
| `EventRuns.DivergedStep` | kernel/fold.go:144-151 | once the folded state shows a dropped owner, an acquisition makes the stream corrupt and no other command restores agreement |
| `EventRuns.FoldMatchesIff` | kernel/evaluator.go:507-663 | over every run of accepted commands, folding the events from scratch rebuilds exactly the evolved state if and only if each reopening carries the owner forward or finds none |
| `EventRuns.FoldAfterDrop` | kernel/evaluator.go:590-600 | otherwise the fold is corrupt, exactly from the next acquisition on, or differs in the owner alone |
| `EventRuns.DroppingRunDiverges` | kernel/evaluator.go:595-599 | a six-command run in which every command is accepted and the fold differs |
| `EventRuns.LevelIffWritten` | kernel/evaluator.go:603-660 | an accepted command leaves the continuity record behind the aggregate's revision exactly when it does not write that record |
| `EventRuns.StuckForEver` | kernel/continuity.go:151-153 | a record that is behind and not ACTIVE is unchanged by every further run of commands |
| `EventRuns.CorrectionWedges` | kernel/evaluator.go:614-625 | a correction accepted outside ACTIVE keeps admission closed over every continuation |
| `EventRuns.ReopensIff` | kernel/evaluator.go:614-661 | after any run that left admission closed, some further commands reopen it if and only if the continuity record is level with the aggregate's revision |
| `StateHistory.OwnershipOfStep` | kernel/evaluator.go:748-777 | an accepted handoff or reassignment found the owner it names and leaves its next owner, an acquisition found none and leaves its owner, a release leaves none, each with the next version; nothing else changes ownership but a reopening that drops it |
| `StateHistory.OwnershipAcceptedIff` | kernel/evaluator.go:748-777 | an ownership command on an unfinished task is accepted exactly when it names the current owner, or none for an acquisition, and the current version |
| `StateHistory.RunIsHistory` | kernel/evaluator.go:565-663 | over every run, owner and assigning event are those of the last command that names or removes an owner, the version counts the ownership commands, the epoch the reopenings, and scope, role and participant are those named last |
| `StateHistory.RunFinds` | kernel/evaluator.go:748-777 | over every run, whoever acquires, releases, hands off, reassigns or activates named the owner and version that the commands before give |
| `StateHistory.FoldIsHistory` | kernel/fold.go:144-151 | over every run whose stream is not corrupt, the folded owner and version are those of the commands too, a dropped owner excepted |
| `StateHistory.FoldChecks` | kernel/fold.go:16-64 | any stream that folds is one aggregate's, numbered from one without a gap, with valid ids and at each event the epoch reached |
| `StateHistory.PhaseOfStep` | kernel/lifecycle.go:48-121 | an accepted command found the aggregate in a phase and condition it is meant for and leaves those it gives |
| `StateHistory.PhaseAcceptedIff` | kernel/lifecycle.go:48-121 | a lifecycle command is accepted exactly in its phases, blocking and unblocking in their condition |
| `StateHistory.ReopeningAcceptedIff` | kernel/lifecycle.go:48-88 | a reopening is accepted exactly in its phases, for the current epoch and a larger scope |
| `StateHistory.RunIsPhased` | kernel/lifecycle.go:34-121 | over every run the phase is that of the last command that moves it, the condition that of the last blocking or unblocking |
| `StateHistory.CreationIff` | kernel/evaluator.go:507-556 | an aggregate is created exactly by the command for its kind, at revision zero, with a sound payload |
| `StateHistory.RoleAcceptedIff` | kernel/evaluator.go:647-653 | a role is rebound exactly when it is sound and names the binding it replaces |
| `StateHistory.ProfileAcceptedIff` | kernel/evaluator.go:631-646 | a profile is rebound exactly by the same human at the current revision, and revoked exactly while active |
| `StateHistory.InteractionAcceptedIff` | kernel/evaluator.go:605-630 | an interaction command is accepted exactly when the interaction takes its event at the next revision, and changes nothing else |
| `StateHistory.ContinuityAcceptedIff` | kernel/evaluator.go:605-630 | the same of continuity commands |
| `StateHistory.ReconfigurationAcceptedIff` | kernel/evaluator.go:654-660 | continuity is reconfigured exactly from ACTIVE by a valid configuration |
| `EventFold.Aggregate.Fold` | kernel/fold.go:69-152 | the field-by-field update of the aggregate is foldEvent as a function of its old value, error for error |
| `EventFold.FoldAggregate` | kernel/fold.go:10-67 | the loop over the events returns the fold, corrupt at the first misplaced event, failed transition or wrong epoch |
| `Lifecycle.ApplyLifecycleActions` | kernel/lifecycle.go:34-121 | accepts a list exactly when every action is accepted in turn, and otherwise stops before the first rejected one |
| `Lifecycle.EpochCountsReopenings` | kernel/lifecycle.go:48-88 | over every accepted run the epoch counts reopenings, and completions and reopenings alternate |
| `Journal.ValidateCompletion` | agentruntime/runtime.go:477-495 | accepts exactly the completions with text or calls, named calls with valid arguments and distinct ids, and a final call only alone |
| `Journal.ReplayJournal` | agentruntime/runtime.go:383-470 | the replay loop computes the fold of the journal, rejection for rejection |
| `Journal.TranscriptPrefix` | agentruntime/runtime.go:405-470 | the transcript of a journal prefix is a prefix of the full transcript |
| `Journal.ResultsFollowCalls` | agentruntime/runtime.go:414-444 | in an accepted journal call ids are distinct, results come in call order, and the pending calls are those without a result |
| `Journal.OneResultPerCall` | agentruntime/runtime.go:435-444 | an accepted journal holds at most one tool result for each call id |
| `AgentRun.FinalSubmissionErrors` | agentruntime/runtime.go:276-290 | counts the recorded failures of the final tool |
| `AgentRun.JournalStore.CompareAndAppend` | agentruntime/runtime.go:45-48 | a compare-and-append journal: it commits only right after the expected sequence, whether or not the caller learns of it |
| `AgentRun.JournalStore.AppendOnce` | agentruntime/runtime.go:338-360 | with lost acknowledgements and other writers, at most one entry is committed, in its own place, and success is reported only when that place holds it |
| `AgentRun.StepInv` | agentruntime/runtime.go:152-274 | every step of every runner keeps the journal append-only and grown one decision at a time on what that runner had read |
| `AgentRun.ReachableInv` | agentruntime/runtime.go:306-336 | so does every interleaving of Run and ReconcilePendingEffects with stops anywhere |
| `AgentRun.ReachedIffGrown` | agentruntime/runtime.go:152-274 | some interleaving leaves a journal if and only if it was grown one decision at a time |
| `AgentRunBounds.DecisionSteps` | agentruntime/runtime.go:183-272 | whatever a runner decides to append is accepted after what it read, unless a model turn repeats a call id |
| `AgentRunBounds.AcceptedIffFresh` | agentruntime/runtime.go:265-271 | a journal the runners can leave is accepted by replay if and only if no call id occurs twice in it |
| `AgentRunBounds.PoisonedIsFinal` | agentruntime/runtime.go:422-427 | a rejected journal is never extended by any runner |
| `AgentRunBounds.ReusedIdPoisons` | agentruntime/runtime.go:261-271 | a run of the machine that leaves four entries which replay rejects |
| `AgentRunBounds.TurnsBounded` | agentruntime/runtime.go:254-256 | model turns never exceed a positive MaxTurns |
| `AgentRunBounds.SubmissionsBounded` | agentruntime/runtime.go:240-242 | counted failures of the final tool never exceed MaxFinalSubmissions when it is above one |
| `AgentRunBounds.FailedSubmissionsBounded` | agentruntime/runtime.go:192-212 | with nonempty error texts that bounds all failed submissions |
| `AgentRunBounds.AllCountedIff` | agentruntime/runtime.go:276-290 | the counted failures are all recorded submissions exactly when each has an error text |
| `AgentRunBounds.EmptyErrorsUnbounded` | agentruntime/runtime.go:276-290 | with empty error texts, for every k a run of the machine that leaves k refused submissions, none of them counted |
| `AgentRunBounds.ReachableJournals` | agentruntime/runtime.go:152-336 | the four results together, for every interleaving of runners |
| `AgentDecisions.FinalDecision` | agentruntime/runtime.go:192-215 | a final submission finishes exactly when it is finalized and the validation does not refuse it; a failure is recorded with its own text exactly when more than one submission is allowed; otherwise nothing is appended |
| `AgentDecisions.ToolDecision` | agentruntime/runtime.go:216-238 | the recorded result of any other tool is its error, or its JSON output; an uncertain outcome records nothing |
| `AgentDecisions.ReconcileDecision` | agentruntime/runtime.go:306-336 | reconciling records an output exactly of an effect shown applied |
| `AgentDecisions.TurnDecision` | agentruntime/runtime.go:240-272 | with nothing pending: finish with the spoken text, or append the model's own valid completion, unless a limit is reached |
| `AgentDecisions.StartDecision` | agentruntime/runtime.go:152-183 | the first entry records the runner's settings, and the recalled context exactly when it is well formed |
| `AgentDecisions.FinishedWasValidated` | agentruntime/runtime.go:194-214 | over every run with a final tool, a finishing entry was appended by a step whose world finalized its pending call to that text and did not refuse it |
| `AgentDecisions.ResultWasGiven` | agentruntime/runtime.go:216-234 | over every run, a recorded result is the output or error that the outside gave for the pending call in that step |
| `AgentDecisions.RefusalWasGiven` | agentruntime/runtime.go:199-208 | over every run, a result recorded for the final tool is the refusal the outside gave, or a reconciled output if that tool is an effect |
| `AgentDecisions.SameSettings` | agentruntime/runtime.go:383-390 | replay takes up a journal only for the request, prompts, final tool and authority it was started with |
| `AgentDecisions.TranscriptReads` | agentruntime/runtime.go:391-444 | the transcript is the system prompt, the prompt with what was recalled, then every turn and result in order |
| `AgentDecisions.ReloadIff` | agentruntime/runtime.go:338-360 | after an unacknowledged append a runner goes on exactly when its own entry stands in its own place |
| `AgentDecisions.LostAcknowledgement` | agentruntime/runtime.go:338-360 | a lost acknowledgement of a committed entry makes no difference to journal or runner |
| `Effects.StepInv` | agenttools/effects.go:91-262 | every step of the gateway, for all three tools, keeps the ledger, receipt and host invariant |
| `Effects.AtMostOneExecution` | agenttools/effects.go:118-157 | over every run and every crash, each (invocation, call id) calls the host at most once |
| `Effects.ReceiptsAreTrue` | agenttools/effects.go:140-177 | a stored success held of the host when it was stored; a stored failure means that call changed neither files nor HEAD nor index |
| `Effects.PerformInv` | agenttools/git_effects.go:98-149 | the call of the host and what is concluded from its report keep the invariant |
| `Effects.JudgeInv` | agenttools/git_effects.go:121-143 | an error after a possible mutation is reported as a failure only when the host shows none |
| `Effects.InspectInv` | agenttools/git_effects.go:188-232 | a recorded call without a result is completed only from what the host shows, never performed again |
| `Effects.CompleteInv` | agenttools/effect_completion.go:15-26 | completion stores one result, which describes the host as it is at that moment |
| `Effects.StoredResultIsStable` | agenttools/effects.go:129-139 | once a result is stored it never changes, and nothing else is ever returned for that call |
| `Effects.RepeatReturnsStored` | agenttools/effects.go:129-139 | executing or reconciling the same request again, once the ledger answers, returns the stored result and changes neither ledger nor host |
| `EffectProgress.NewCallPerforms` | agenttools/effects.go:97-177 | after any run, a new call of any of the three tools, started where its request expects the host and answered throughout, calls the host once, leaves exactly its effect, and its success is stored and returned |
| `EffectProgress.UntriedRefusals` | agenttools/effects.go:139-149 | over every run, a refusal stored without a call of the host means the host could not be read for that request, or a file was not as expected when it was stored |
| `EffectProgress.ChangeIsTheEffect` | agenttools/effects.go:157-177 | the host changes only by the one performed call, from where its request starts, and by exactly its effect |
| `EffectProgress.CrashThenRecovery` | agenttools/effects.go:179-262 | an execution that dies between the host and the ledger is completed by reconciling it, with the success it would have returned and without a second call |
| `EffectProgress.RecoveryCompletesIff` | agenttools/effects.go:179-262 | a recorded call without a result is completed exactly when the host shows its effect |
| `EffectProgress.JudgedByTheHost` | agenttools/git_effects.go:125-143 | after an error an effect that is there is a success, a host still at the start a failure, anything else stays open |
| `EffectProgress.UnreportedIsJudged` | agenttools/effects.go:158-172 | a call of the host without a report is never taken for a success |
| `Utf8.CutIsValid` | agenttools/effect_completion.go:32-38 | cutting valid text at the start of a character leaves valid text |
| `Utf8.Truncate` | agenttools/effect_completion.go:32-38 | valid text never panics, stays valid and loses at most three bytes below the limit; the loop runs off the front exactly when the first 4097 bytes are continuation bytes |
| `Utf8.StrayTailsRunOff` | agenttools/effect_completion.go:32-38 | any text of more than 4096 bytes 0x80 does that |
| `Utf8.FailedEffectResult` | agenttools/effect_completion.go:28-50 | a nonempty validly encoded error always gives a result that passes the validator |
| `EndToEnd.AtMostOnce` | agentruntime/runtime.go:213-238 | with both loops crashing and restarting anywhere, each call reaches the host at most once, has at most one recorded result, and a recorded effect output is the one result the ledger ever stores for it |
| `Dag.ValidateDAG` | kernel/dag.go:13-68 | valid if and only if names are nonempty and distinct, edge endpoints are known and there is no directed cycle; each refusal reason is characterised |
| `Dag.Drain` | kernel/dag.go:52-63 | the queue loop ends, visits each node at most once and visits parents before children |
| `Dag.Relax` | kernel/dag.go:53-62 | one dequeue keeps the counters equal to the edges whose parent is not done |
| `Dag.StuckMeansCycle` | kernel/dag.go:64-66 | nodes left over, each with a parent left over, contain a directed cycle |
| `Dag.OrderMeansAcyclic` | kernel/dag.go:64-67 | an order of all nodes with parents first excludes every cycle |
| `Timing.UnionDuration` | kernel/workflow_efficiency.go:104-127 | the sort-and-sweep union is the number of instants covered by some interval |
| `Timing.PeakParallelism` | kernel/workflow_efficiency.go:129-152 | the boundary sweep is the largest number of half-open intervals covering one instant, zero-length ones included |
| `Timing.SpanDuration` | kernel/workflow_efficiency.go:88-102 | the span runs from the earliest start to the latest end and is at least the union |
| `Timing.TotalAtMostPeakTimesUnion` | kernel/workflow_efficiency.go:104-152 | summed durations are at most peak times union, for every list of intervals |
| `Timing.BalanceIsLoad` | kernel/workflow_efficiency.go:129-145 | starts minus ends up to an instant is the number of intervals covering it |
| `Timing.RunsAt` | kernel/workflow_efficiency.go:62-74 | an instant counts for an invocation exactly from its start until it finished, or until the observation |
| `Timing.MeasureWorkflowTiming` | kernel/workflow_efficiency.go:34-86 | counters are exact, each wall time is the union of its purposes and at most the critical path, and model time is at most peak times critical path |
| `Authorization.SubsetTransitive` | kernel/authorization.go:200-231 | narrowing of scopes composes |
| `Authorization.SubsetAttenuates` | kernel/authorization.go:155-176 | a narrower scope allows, and lets read, no more |
| `Authorization.Search` | kernel/authorization.go:93-138 | the depth-first search finds a chain if one exists within the depth bound without repeating a principal, and only then; over delegations in digest order it finds the lexicographically least |
| `Authorization.FindsIffReaches` | kernel/authorization.go:116-138 | from a grant the search covers exactly the chains of one to four links |
| `Authorization.Authorize` | kernel/authorization.go:63-91 | allows a command if and only if a valid grant and a chain of zero to four delegations reach it; a refusal shows read access exactly when some chain carries it; an approval names a real grant and chain, with distinct digests the least grant and the lexicographically least chain |
| `Authorization.OrderIrrelevant` | kernel/authorization.go:63-91 | whether a command is allowed, and whether a refusal shows read access, does not depend on the order of grants or delegations |
| `Authorization.AnswerDetermined` | kernel/authorization.go:67-91 | with distinct digests the whole answer, its grant and chain digests included, does not depend on that order |
| `Authorization.ChainAttenuates` | kernel/authorization.go:144-149 | along a chain every scope lies within every earlier one and expires no later |
| `Authorization.RootAllows` | kernel/authorization.go:116-149 | every holder on the chain, the root grant first, allows the command, and no link is revoked or expired |
| `Authorization.AllowedOnFields` | kernel/authorization.go:155-169 | when a command is allowed, the named grant and every named delegation are in force and handed on properly, and each lists the command type, target kind and id, is met by the requesting owner if it requires the owner, and may reopen an ACCEPTED target if that is asked |
| `Authorization.ReadOnFields` | kernel/authorization.go:171-176 | the same of read access shown on a refusal |
| `Authorization.GrantSuffices` | kernel/authorization.go:74-81 | a grant in force to the authority that meets these conditions is enough, for the command and for reading |
| `Authorization.DelegationSuffices` | kernel/authorization.go:116-138 | so is a delegation from such a grant, in force and narrower in every field |
| `Release.ReachableInv` | kernel/release.go:561-653 | in every reachable CODE plan merges before the position succeeded, none after it has a result, and an active attempt is for that position in the current round |
| `Release.ReadyMeansExpectedTree` | kernel/release.go:603-626 | READY_FOR_ACCEPTANCE: every merge succeeded and the tree observed at the last one is the expected tree |
| `Release.TerminalAbsorbs` | kernel/release.go:561-632 | FAILED and READY_FOR_ACCEPTANCE accept no event |
| `Release.FullyMergedMovesIffExpectedTree` | kernel/release.go:618-620 | a fully merged plan accepts its finalization, or any event, exactly when the last observed tree is the expected one |
| `Release.RequestsIncrease` | kernel/release.go:578-585 | successive execution requests strictly increase (index, round), so no (merge, round) is requested twice |
| `Release.RequestsBounded` | kernel/release.go:634-653 | a run makes at most merges times round limit requests |
| `Release.MergedReachable` | kernel/release.go:561-653 | from every created CODE plan that requires a profile some run performs every merge, the last one observing any given tree |
| `Release.WrongTreeReachable` | kernel/release.go:603-620 | when that tree is not the expected one, the run ends in a plan that accepts no event |
| `Release.EveryPlanCompletes` | CONTRACTS/tekroo.kernel.contracts/0.12.0/schemas/payloads.schema.json:2844-2859 | every CODE plan that a creation payload of the schema yields has a run to READY_FOR_ACCEPTANCE |
| `Release.CompletableIffProfiles` | kernel/release.go:414-415 | of the CODE plans this function accepts by itself, exactly those that require some profile have such a run |
| `Release.CodeRefines` | kernel/release.go:99-199 | every accepted event of a reachable CODE plan is a step the abstract model accepts, into the same state |
| `Release.NoReleaseRefinesIffPlanned` | kernel/release.go:621-626 | a NO_RELEASE_REQUIRED plan refines the abstract model exactly while it is PLANNED |
| `Release.NoReleaseFinalizesTwice` | kernel/release.go:621-626 | a second finalization is accepted and replaces the first |
| `Release.EffectiveReleaseResultEventIDs` | kernel/release.go:669-683 | lists, in merge order, the event each successful result rests on, and nothing when some merge has none |
| `ReleaseEvents.QualificationIff` | kernel/release.go:567-577 | a PLANNED plan is qualified exactly by a report on its own base, heads, tree, manifest and profiles |
| `ReleaseEvents.RequestIff` | kernel/release.go:578-585 | a qualified plan takes exactly the request for its next merge in its current round |
| `ReleaseEvents.ResultIff` | kernel/release.go:586-593 | an executing plan takes exactly a report on its active attempt, of the planned base and head with a tree or of nothing, and records it with the state its outcome gives |
| `ReleaseEvents.ReconciliationIff` | kernel/release.go:594-602 | a reconciling plan takes exactly a report that supersedes the unknown result and fits the provider's state; the result keeps its first event |
| `ReleaseEvents.FinalizationIff` | kernel/release.go:603-626 | a fully merged plan is finalized exactly by the event that names its qualification, the expected tree and the events its merges rest on |
| `ReleaseEvents.NoReleaseFinalizationIff` | kernel/release.go:621-626 | a plan without a release is finalized exactly by the event that names it and nothing else |
| `ReleaseEvents.CreatedIff` | kernel/release.go:322-418 | a created CODE plan has sound terms, field by field, and nothing done |
| `ReleaseEvents.AbstractIff` | kernel/release.go:99-199 | which steps the abstract model takes, and into which state |
| `Review.EvaluateReviewJoin` | kernel/coordination.go:164-216 | the join is a function of the set of results: conflict, pending, the gravest failure, or pass |
| `Review.DeterministicReviewFailure` | kernel/coordination.go:207-216 | the gravest failing verdict, in whatever order the map is ranged over |
| `Review.JoinPermutation` | kernel/coordination.go:164-205 | the join does not depend on the order of results or of branches |
| `Review.PassIffAllPass` | kernel/coordination.go:194-204 | PASS exactly when every required branch, and nothing else, reported PASS |
| `BoundedReview.CurrentFindingSet` | kernel/coordination.go:496-512 | succeeds exactly when no two findings share a key and differ, and then maps each key to its finding |
| `BoundedReview.AcceptedIff` | kernel/coordination.go:422-494 | a result is accepted exactly when the review is open, the record is admissible for its role, it is new, it supersedes properly and findings still agree |
| `BoundedReview.ApplyBoundedReviewBranchResult` | kernel/coordination.go:404-420 | records the result, its event, the findings, the verdict and the recomputed join, or nothing |
| `BoundedReview.ApplyReviewFinalization` | kernel/coordination.go:514-553 | finalizes exactly the addressed, complete review whose result events are listed one for one |
| `BoundedReview.ReachableInv` | kernel/coordination.go:404-553 | in every reachable review the stored join is the join of the current records and never CONFLICT, findings are current, and every record is admissible |
| `BoundedReview.PassFinalization` | kernel/coordination.go:441-477 | a PASS finalization: every required branch holds a PASS from its own validator or the adjudicator, inside round and deadline limits, independent when topology-bound, none from a timeout |
| `BoundedReview.FinalizedAbsorbs` | kernel/coordination.go:423-425 | after finalization no result and no finalization is accepted |
| `BoundedReview.RoundsMayRepeat` | kernel/coordination.go:476-480 | after an adjudicator's answer a validator's earlier round is accepted again |
| `BoundedReview.AppliedIff` | kernel/coordination.go:404-420 | in a reachable review a result is applied exactly when it passes its checks: the join never refuses it |
| `BoundedReview.AcceptedIffRoundsRise` | kernel/coordination.go:477-484 | a list of results for one branch, each superseding the one before and otherwise acceptable, is accepted as a whole if and only if the round rises wherever the role stays |
| `BoundedReview.StretchBounded` | kernel/coordination.go:440-480 | in every run, the results one role gives a branch in a row are at most that role's rounds |
| `BoundedReview.ResultsBounded` | kernel/coordination.go:440-480 | over every run the results of a branch are at most the largest number of rounds of the roles that answer it, times the changes of role plus one |
| `BoundedReview.OneRoleBounded` | kernel/coordination.go:376-482 | while one role answers a branch its rounds bound the accepted results; for policy timeouts these are the 1000 rounds a payload can name |
| `BoundedReview.AlternatingUnbounded` | kernel/coordination.go:477-480 | an acceptable answer of the validator and one of the adjudicator, in any rounds of any review, are accepted again in turn for every list of new event ids |
| `BoundedReview.BoundReviewAlternates` | kernel/coordination.go:268-271 | an opened topology-bound review with one round for each role, and two answers it takes in turn for every list of distinct event ids |
| `BoundedReview.TimeoutsFillRounds` | kernel/coordination.go:461-480 | a policy timeout is accepted again in each of up to 1000 rounds, whatever the round limits of the review |
| `ReviewHistory.ResultIff` | kernel/coordination.go:422-494 | a reachable review takes exactly the results that, field by field, are parsed, by the authority of their role, inside its limits, independent, new, properly superseding and not contradicting other findings |
| `ReviewHistory.IndependentIff` | kernel/verification_topology.go:32-78 | independence on the fields: a complete receipt over the asked dimensions and methods, and another principal, actor or execution where asked |
| `ReviewHistory.RunKeepsLast` | kernel/coordination.go:404-420 | over every run the record of a branch is the result given last for it, and the revision counts the results |
| `ReviewHistory.FinalizationIff` | kernel/coordination.go:514-553 | a review is finalized exactly when complete, on its own revision, status and terms, by the events of its records, and the finalization says so |
| `ExecutionControl.StepInv` | application/execution_coordinator.go:106-275 | every step of every concurrent call keeps the invariant |
| `ExecutionControl.StartsAtMostOnce` | application/execution_coordinator.go:146-160 | over every interleaving the engine is started at most once, and only after the authorization was applied |
| `ExecutionControl.ReconcilesBounded` | application/execution_coordinator.go:204-229 | the engine is asked to reconcile at most MaxReconciliations times |
| `ExecutionControl.VersionsCountCommits` | adapters/memory/execution_control.go:70-104 | versions grow by one per committed change, and every change the coordinator commits is one the store's transition table allows |
| `ExecutionControl.TerminalAbsorbs` | application/execution_coordinator.go:231-275 | nothing is committed after STOPPED or REJECTED, whatever is still in flight, and a rejected execution was never started |
| `ExecutionProgress.StartHappens` | application/execution_coordinator.go:106-161 | in any interleaving with nothing stored yet, an answered Start starts the engine exactly once and the record notes its answer |
| `ExecutionProgress.EngineNotes` | application/execution_coordinator.go:231-262 | RUNNING or STOPPED is recorded exactly when the engine observed that of the very actor and execution asked for; otherwise UNCERTAIN |
| `ExecutionProgress.RefusalRejects` | application/execution_coordinator.go:121-141 | a refused authorization is recorded as REJECTED and the engine is not called |
| `ExecutionProgress.OtherStartRefused` | application/execution_coordinator.go:113-120 | a Start under a key that another request or command holds changes nothing |
| `ExecutionProgress.SameStartResumes` | application/execution_coordinator.go:106-160 | the same Start again takes up the stored record where it is |
| `ExecutionProgress.StopAndReconcileClaim` | application/execution_coordinator.go:163-229 | Stop claims exactly a RUNNING or UNCERTAIN execution, Reconcile exactly an open one with attempts left |
| `ExecutionProgress.RecordsMean` | application/execution_coordinator.go:106-275 | over every interleaving, what a committed record says of authorization, observation and attempts is true of it |
| `Continuity.CanonicalUuids` | kernel/continuity.go:286-290 | sorting gives the one canonical order of the identifiers |
| `Continuity.SameUuidSet` | kernel/continuity.go:292-304 | compares identifiers with multiplicity |
| `Continuity.CollectSuspension` | kernel/continuity.go:191-201 | collects the recorded and the unresolved ids, or reports an invalid record |
| `Continuity.FinalCheckIffEventId` | kernel/continuity.go:114-129 | the final validity check refuses a transition exactly when its event id is malformed |
| `Continuity.StepEpoch` | kernel/continuity.go:150-276 | admission is open exactly in ACTIVE, and the epoch rises by one exactly when admission closes or an outage is recorded |
| `Continuity.Fencing` | kernel/continuity.go:326-337 | once admission has closed after being open at an epoch, no later state admits that epoch |
| `Continuity.ReconfigurationFencedIff` | kernel/continuity.go:131-148 | after a reconfiguration, fencing holds for every continuation if and only if the new epoch is above every retired one and not below the open one |
| `Continuity.FencedIffRising` | kernel/continuity.go:131-276 | over every run of events and reconfigurations, every state stays fenced for all continuations if and only if each reconfiguration rises above the epochs retired so far |
| `Continuity.ResumeAccountsForAll` | kernel/continuity.go:178-270 | whenever admission reopens without an outage, the run ends with a whole cycle in which each in-flight execution has exactly one suspension record and exactly the detached or unknown ones have one reconciliation record |
| `Continuity.Refines` | kernel/operator_continuity_models.go:262-331 | every accepted event is a step the policy model accepts, with the same state, epoch, admission and unresolved ids |
| `ContinuityEvents.QuiescenceIff` | kernel/continuity.go:156-175 | quiescing is accepted exactly from ACTIVE with its conditions, and leaves the next epoch closed with exactly the listed executions in flight |
| `ContinuityEvents.SuspendedIff` | kernel/continuity.go:176-205 | suspending is accepted exactly with one complete record per execution in flight and the detached or unknown ones as unresolved |
| `ContinuityEvents.ReconciliationIff` | kernel/continuity.go:206-219 | reconciling starts exactly from the unresolved executions of a suspended team |
| `ContinuityEvents.OutageIff` | kernel/continuity.go:220-240 | an outage is accepted in exactly the state it names and leaves its executions to reconcile in the next epoch |
| `ContinuityEvents.ResumeIff` | kernel/continuity.go:241-270 | admission reopens exactly when every check is done and every unresolved execution is settled once |
| `ContinuityEvents.ConfigurationIff` | kernel/continuity.go:131-148 | which configurations are accepted, and the record they start |
| `ContinuityEvents.PolicyIff` | kernel/operator_continuity_models.go:262-331 | which steps the policy model accepts; a refusal reports the state as it is |
| `Evidence.EvidenceRegistry.Register` | kernel/evidence.go:133-151 | the new registry as a function of the old one; an error changes nothing |
| `Evidence.EvidenceRegistry.Read` | kernel/evidence.go:153-170 | what is returned, and the access record it leaves |
| `Evidence.EvidenceRegistry.Delete` | kernel/evidence.go:172-198 | the tombstone is kept and the bytes go exactly when no other live record shares them |
| `Evidence.EvidenceRegistry.RegisterAssessment` | kernel/evidence.go:200-234 | accepted exactly on offered evidence, superseding properly or first on its claim and scope |
| `EvidenceRuns.ContentInvariant` | kernel/evidence.go:133-198 | over any mix of operations, stored digests are exactly those of available undeleted records and each blob hashes to its key |
| `EvidenceRuns.ReadIsExact` | kernel/evidence.go:153-170 | a permitted read of a live record returns bytes with its digest, the registered bytes when the digest is injective; any other permitted read returns none |
| `EvidenceRuns.SupersessionWellFounded` | kernel/evidence.go:214-231 | following what an assessment supersedes ends at the one root of its claim and scope |
| `EvidenceFacts.RegisteredIff` | kernel/evidence.go:133-151 | a registration is accepted exactly from its own registrar with the right to that partition, of a new, described record with matching bytes, and adds that alone |
| `EvidenceFacts.DeletedIff` | kernel/evidence.go:172-198 | a deletion is accepted exactly from its named authority with the rights, a basis, a time and the record's digest, once |
| `EvidenceFacts.AssessedIff` | kernel/evidence.go:200-234 | an assessment is accepted exactly when new, well put, on usable evidence, and superseding one on the same claim and scope or first on them |
| `EvidenceFacts.ReadOnFields` | kernel/evidence.go:153-170 | a read is answered exactly to who may read the partition, without bytes if deleted or unavailable, and is logged as answered |
| `EvidenceFacts.RecordValidIff` | kernel/evidence.go:236-271 | record validity, field by field |
| `EvidenceFacts.AssessmentValidIff` | kernel/evidence.go:273-291 | assessment validity by class, field by field |
| `EvidenceFacts.TimeEncodesIff` | kernel/evidence.go:302-311 | the exact years and zone offsets with a JSON form |
| `EvidenceFacts.AllAccounted` | kernel/evidence.go:133-234 | in every reachable registry each record was registered by its registrar, each tombstone set by its authority, both with the right to it, and each assessment is well put |
| `EvidenceAudit.EvidenceProjection.Apply` | kernel/evidence.go:362-373 | stops at the first entry that does not continue the log and keeps what came before |
| `EvidenceAudit.BatchIsIncremental` | kernel/evidence.go:362-373 | one batch and two batches give the same projection and verdict |
| `EvidenceAudit.LastDigestDetermines` | kernel/evidence.go:313-321 | with an injective entry digest, two accepted logs with the same last digest are identical |
| `EvidenceAudit.AuditAcceptedIff` | kernel/evidence.go:302-311 | a fresh projection accepts the log of a registry if and only if every audited value has a JSON form |
| `EvidenceAudit.LateOrFarBreaksAudit` | kernel/evidence.go:302-311 | a valid assessment dated in the year 10000, or in 2025 in a zone 24 hours from UTC, is registered and its log refused |
| `HumanInteraction.Selected` | kernel/human_interaction.go:239-249 | finds a recipient exactly when the person is human and listed |
| `HumanInteraction.FinalCheckIffEventId` | kernel/human_interaction.go:270-383 | a transition that passes its branch checks is refused by the final validity check exactly for a malformed or reused delivery event id or a reused response event id |
| `HumanInteraction.ResponseOrderDetermined` | kernel/human_interaction.go:340-341 | the sorted response list does not depend on how the sort treats ties |
| `HumanInteraction.PolicyStaysSatisfied` | kernel/human_interaction.go:251-268 | over every run a satisfied response policy stays satisfied and no answer is taken back |
| `HumanInteraction.PolicyAgrees` | kernel/human_interaction.go:468-485 | the two implementations of the response policy agree on every valid interaction |
| `HumanInteraction.ExactIffListed` | kernel/human_interaction.go:421-444 | a closing list is accepted exactly when it is the accepted responses, event for event and person for person, at most 64 of them |
| `HumanInteraction.ClosedIsExact` | kernel/human_interaction.go:347-366 | CLOSED: the policy is met, the lists are exact and each response answers a delivery that reached that person |
| `HumanInteraction.ClosableIff` | kernel/human_interaction.go:347-366 | some closing event is accepted if and only if the interaction is SATISFIED with at most 64 responses; under an ALL policy, with at most 64 recipients |
| `HumanInteraction.SmallAlwaysClosable` | CONTRACTS/tekroo.kernel.contracts/0.12.0/schemas/payloads.schema.json:1701-1756 | with at most 64 recipients, as the opening payload demands, every SATISFIED interaction that any run reaches can be closed |
| `HumanInteraction.TerminalAbsorbs` | kernel/human_interaction.go:270-383 | CLOSED and EXPIRED accept no event |
| `InteractionEvents.DeliveryIff` | kernel/human_interaction.go:276-315 | a delivery is accepted exactly of the question or an equivalent rendering, to a recipient over their binding, under new ids, and is recorded as given |
| `InteractionEvents.ResponseIff` | kernel/human_interaction.go:316-339 | an answer is accepted exactly from a recipient in their profile and role, to a delivery that reached them, once, with an artifact and event of its own |
| `InteractionEvents.ResponseLeaves` | kernel/human_interaction.go:339-346 | it joins the others in the order of respondents, and the interaction is SATISFIED exactly when there are enough |
| `InteractionEvents.ClosingIff` | kernel/human_interaction.go:347-366 | a satisfied interaction closes exactly on the list of all its responses with reasons, evidence and an effect it may resolve to |
| `InteractionEvents.ExpiryIff` | kernel/human_interaction.go:367-383 | a live interaction expires exactly from its deadline on, by its timeout policy, never as consent |
| `InteractionEvents.TermsIff` | kernel/human_interaction.go:166-237 | the terms an interaction may be opened with, field by field |
| `InteractionEvents.AnyoneCanAnswer` | kernel/human_interaction.go:276-346 | any recipient of a live interaction who has not answered can be reached and can answer |
| `Assignment.CanonicalParents` | kernel/assignment.go:231-250 | succeeds exactly on valid parents without duplicates, and sorts them |
| `Assignment.PlanAssignment` | kernel/assignment.go:76-183 | the decision for some sorted order of the dependencies, field for field |
| `Assignment.OrderDetermined` | kernel/assignment.go:108-114 | with distinct aggregates that order, and so the decision, is unique |
| `Assignment.PlanPermutation` | kernel/assignment.go:76-183 | the decision does not depend on the order of candidates, parents, or dependencies with distinct aggregates |
| `Assignment.ReadyMeans` | kernel/assignment.go:107-183 | READY_TO_ASSIGN: the task is free and runnable, every dependency is satisfied and linked to its own parent event, and the actor chosen is the unique minimum of the eligible ones |
| `AssignmentOrder.ReadyIff` | kernel/assignment.go:76-183 | READY_TO_ASSIGN if and only if the input is valid, the task free and runnable, every dependency well-formed, linked, satisfied and on its own aggregate with its own evidence, and some well-formed candidate eligible |
| `AssignmentFields.ReadyChoice` | kernel/assignment.go:152-166 | the chosen candidate is qualified and preferred to every other qualified one: a reported cost before none, then the lower cost, then the lighter load, then the earlier name |
| `AssignmentFields.ReadyOnFields` | kernel/assignment.go:76-183 | READY_TO_ASSIGN exactly when input, task, parents, dependencies and candidates meet the listed conditions, field by field |
| `AssignmentFields.EarlyStatus` | kernel/assignment.go:76-106 | ALREADY_OWNED and NOT_RUNNABLE exactly for an admitted input whose task is owned, or cannot be taken |
| `AssignmentFields.BlockedIff` | kernel/assignment.go:115-129 | BLOCKED_DEPENDENCY exactly when the loop gets to a well-formed, linked dependency whose phase is not observed |
| `AssignmentFields.NoActorIff` | kernel/assignment.go:139-156 | NO_ELIGIBLE_ACTOR exactly when everything is in order and no candidate is qualified |
| `AssignmentFields.EligibleIffQualified` | kernel/assignment.go:189-199 | eligibility, field by field |
| `AssignmentFields.ReadyCopies` | kernel/assignment.go:176-183 | what the decision copies from its input |
| `AssignmentOrder.DeterminedIff` | kernel/assignment.go:107-131 | all sorted orders of the dependencies give one decision if and only if the loop is not reached or the first group of equal aggregates it gets to is interchangeable |
| `AssignmentOrder.DuplicatesDisagree` | kernel/assignment.go:115-129 | an input with a satisfied and an unsatisfied dependency on one aggregate, whose two sorted orders give INVALID and BLOCKED |
| `AssignmentOrder.EvidenceDisagrees` | kernel/assignment.go:115-129 | an input with two satisfied ones with different evidence, whose two sorted orders report different dependency events |
| `Ids.CanonicalIffPermutation` | kernel/continuity.go:292-304 | two lists have the same canonical form exactly when they hold the same ids with the same multiplicity |

## Left out

- Authorization, catalogue lookup, payload schemas, attempt budgets and the other checks `Evaluate` makes before it evolves a state. They only refuse more commands, so every invariant holds of `Evaluate` too; the results that some run exists (the "if" half of `EventRuns.ReopensIff`, `Release.MergedReachable`, `WrongTreeReachable`, `EveryPlanCompletes`, `BoundedReview.AlternatingUnbounded`, `TimeoutsFillRounds`, `HumanInteraction.ClosableIff`) hold of the transition functions.
- Aggregates without a folded state (reviews, release plans, evidence, executions, budgets, invocations) in `EventSourcing`; reviews, release plans and evidence have modules of their own.
- The fields of an operator role, a participant profile and a work profile beyond those the transitions read: one flag stands for the rest of their validity rule.
- JSON text itself: decoding, and the replacement of invalid UTF-8 when a text is encoded. Replay compares a recorded final text with a fresh one, so a `Finalize` whose output is not valid UTF-8 is outside the model.
- Lengths of names and texts are counted in characters, not bytes, except in `Utf8`.
- Overflow of 64-bit and 32-bit counters and saturation of durations.
- Reviews without bounded branches (the legacy form), and the sorting of lists when a review payload is parsed.
- `EvidenceProjection.Digest`, and the listing accessors of the registry.
- Update in place and aliasing of the snapshots that the source clones before changing them.
- Path checks, command construction and processes behind `Host.execute`; the host is its file hashes, HEAD, index and commits, a write is one atomic rename, and the workspace lock is taken to give mutual exclusion.
- An error that the host marks as not applied is taken to come before any change of the host; a git operation that changed the host and then reported such an error is outside the model.
- Whether the paths of a stage call are clean is an answer from outside, so a stage receipt states HEAD and the index tree, not their relation to the working tree.
- The capacity and restart-rate limits of `Prepare`, timestamps of execution records, and `Inspect`: a swap may be refused for any reason, which covers the timestamp rule.
- The condenser, semantic context retrieval and the model itself: their answers are arbitrary.
- Test execution effects (`TestGateway`), sandboxes, HTTP and MCP servers, the Mongo adapters and the other coordinators.
