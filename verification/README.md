# Study ledger: a verified model

The study agent keeps one append-only event stream per course. Two ledgers are folds over it: the artifact
ledger (proposals, decisions, revision lineages, a durable parent forest) and the assessment ledger
(presentations, attempts, grades, contests). Services write to the stream under optimistic concurrency; a typed
snapshot, an export and a learner-evidence view re-derive the same facts in other ways. This project models those
parts in Dafny and proves what holds for every stream that replays and for every interleaving of the services.

Reading order:

| files | subject |
|---|---|
| `Domain`, `Collections` | identities, content, provenance, events; a digest is the tuple it digests |
| `ArtifactLedger`, `ArtifactInvariants`, `ArtifactLifecycle`, `ArtifactRuns`, `ArtifactForest` | decoders and reducers of artifact events; the ledger invariant; whole-run results |
| `AssessmentLedger`, `AssessmentInvariants`, `AssessmentRuns` | the same for presentations, attempts, grades, contests |
| `Course` | the fold over a contiguous stream |
| `Selections`, `BatchGuards`, `EventGuards`, `AssessmentRecords` | exactly when an event is admitted; exactly what the assessment ledger stores of each event |
| `ArtifactSnapshot` | heads and accepted revisions recomputed from an unordered listing |
| `ArtifactExport`, `ExportAgreement` | the export's re-derivation, and why its checks cannot fire |
| `ArtifactPrepare`, `ArtifactPlacement`, `PreparedRuns` | the service's preparation of a batch: exactly when it succeeds and what it records, and the reducer's answer to it |
| `EventStore`, `Commands`, `ServiceProtocol`, `ServiceRules` | compare-and-append, the commands as step programs, any number of interleaved clients |
| `CommandDrafts`, `CommandEvents`, `CommandOutcomes` | when each command is drafted; what its committed event says; what a call that meets no interference ends with |
| `ServiceVerdicts`, `ServiceProgress` | exactly when an event whose service checks have all passed is vetoed; commands whose checks all hold, run to their end |
| `ServiceCalls`, `ServiceExecution` | one call from start to outcome inside a run; one command on the mutable store |
| `Evidence`, `EvidenceOrder`, `EvidenceTotals`, `ClosedGrading` | the evidence projection and the closed grading policy |
| `DemoEvents`, `DemoRun` | one concrete stream written by the services whose evidence projection raises, two runs of two clients under one key that end in retry, a run that refuses a fully checked command, and four events only the reducers admit |
| `Candidates`, `Pipeline`, `MorphologyPlans`, `HybridPlans`, `PlanRules` | candidates to artifacts; the two plan checkers |
| `VerifiedGrading`, `OwnerRegistry` | derivation and recovery of a verified grade; write-once owners |

A refused event, or a call that raises, is `None` (or `Refused`, `Vetoed`). Loops in the source are methods with
loops, each proved equal to a function or to a declarative predicate; the store and the owner registry, which
mutate state, are classes.

How the protocol proof works. A client's checks are facts about the store it read. The invariant is: *while the
stream still has the length the client expects, every check it has passed holds of the current store*. Any append,
by anyone, makes the other clients' expectation stale and so leaves the invariant true. It rests on a caller's
expected sequence being one it has observed, that is, at most the stream length when its command starts.

How data is pinned. Reducers, drafts, projections and conversions are functions that follow the code. What they store,
commit and emit is stated a second time, field by field on events, commands, ledger and book, without those functions:
`EventGuards.AdmittedExactly`, `AssessmentRecords.RecordsAreTheStreams`, `ExportAgreement.ExportAgrees`,
`CommandDrafts.DraftsExactly`, `CommandEvents.CommittedEventSays`, `EvidenceTotals.EvidenceSaysWhatItWeighs`,
`ArtifactPlacement.PreparesExactly`, `Pipeline.LessonProposalsLoop`, `VerifiedGrading.RecoveryExactly`,
`PlanRules.MorphologyAcceptsExactly` and `PlanRules.HybridAcceptsExactly`.

Four places where the code does not do what one would expect, all kept as they are:

- The service accepts a revision that names an unresolved parent ordinal when its target has no durable parent
  (an absent value equals an absent value); the reducer refuses it (the text of an absent value equals no absent
  value). `ArtifactPrepare.PreparedBatchReduces` shows that this is the only disagreement,
  `PreparedRuns.PreparedBatchRefused` reaches it.
- A command whose service checks all pass can still be vetoed by decoder or reducer: the services leave open
  sessions (of artifact commands), the encoding of an item's key, the fit of a response and the length of a contest
  reason to them. `ServiceVerdicts.AppendVerdict` gives the exact condition for every command,
  `DemoRun.ReadyYetRefused` a run. Decisions on open sessions and exact grades are never vetoed.
- The evidence projection lists a contest right after its grade but demands event order, so it raises on "grade,
  grade of the same format, contest of the first". `EvidenceOrder.EvidenceSucceedsExactly` gives the exact
  condition, `DemoRun.EvidenceRefused` a run of the services.
- The retryable error is documented as "the exact artifact command did not commit". A call can be told to retry by
  its length check although its command is in the stream, because another client committed the same command during
  the call. `ServiceCalls.RetryMeansNotCommittedExactly` shows that this is the only way,
  `DemoRun.RetryThoughCommitted` gives the run. When the other client used the key for a different command the error
  is true of the command, though its identity is taken (`DemoRun.RetryOverAnother`).

## Model

| member | source | states |
|---|---|---|
| ArtifactLedger.ReduceBatchLoop | src/study_agent/artifacts/projection.py:44-177 | the proposal loop over its working maps computes the reducer `ReduceBatch`, refusals included |
| ArtifactInvariants.ProposeOneEffect | src/study_agent/artifacts/projection.py:64-148 | an accepted proposal adds exactly its own new revision as recorded, creates its artifact exactly when it names no prior, and leaves kinds and parents alone |
| ArtifactInvariants.ProposeAllKeeps | src/study_agent/artifacts/projection.py:64-160 | any number of proposals keeps every lineage a duplicate-free chain of one kind and parent that ends at the stored head |
| ArtifactInvariants.ProposeAllEffect | src/study_agent/artifacts/projection.py:64-165 | the loop adds one revision per proposal, all new and distinct, in proposal order, and nothing else |
| ArtifactInvariants.CurrentAcceptedExact | src/study_agent/artifacts/projection.py:426-442 | on a well-formed ledger the accepted-predecessor lookup never raises and finds exactly the accepted revision of the artifact |
| ArtifactLifecycle.DecisionEffect | src/study_agent/artifacts/projection.py:180-268 | a decision changes the status of its proposed target and, when accepting, supersedes exactly the artifact's accepted revision |
| ArtifactLifecycle.ApplyKeeps | src/study_agent/artifacts/projection.py:44-268 | every accepted artifact event keeps the ledger invariant: lineages, derived identities, one accepted revision, decisions that explain statuses, indexed commands |
| ArtifactLifecycle.ApplyIsMonotone | src/study_agent/artifacts/projection.py:44-268 | no event removes or rewrites a revision, reopens a terminal status, re-parents an artifact or forgets a command |
| Course.ReplayLoop | src/study_agent/application/export.py:399-411 | the replay loop computes the fold, and stops at the first gap or refused event |
| BatchGuards.BatchAdmitted | src/study_agent/artifacts/projection.py:44-177 | decoder and reducer admit a proposal batch if and only if its session is open, its identities are its own and new, and every proposal is grounded and is a new artifact under an earlier proposal or the next revision of an artifact of its kind after its head and under its parent |
| EventGuards.AdmittedExactly | src/study_agent/artifacts/projection.py:180-268 | in every replayed state an event of any kind is admitted if and only if its guards hold: a decision's target is proposed in the session, a rejection supersedes nothing, an acceptance exactly the accepted revision, a receipt answers the request of that state |
| EventGuards.EveryEventWasGuarded | src/study_agent/assessments/projection.py:40-212 | on every replayed stream each event met its guards in the state just before it: what is presented is an accepted item of the session with that format, prompt and options, an answer fits its item, a grade lists the item's criteria and names the attempt's active grade |
| Selections.SelectsExactly | src/study_agent/assessments/projection.py:344-386 | for distinct options: a selection equals the options filtered by it if and only if it lists options only, in the order in which the item lists them |
| ArtifactRuns.ReplayKeepsLedger | src/study_agent/artifacts/projection.py:44-268 | the ledger of every stream that replays satisfies the invariant |
| ArtifactRuns.RunsOnlyAdd | src/study_agent/artifacts/projection.py:80-116 | between any two points of a run revisions keep their immutable fields, rejected and superseded stay so, parents are fixed at creation |
| ArtifactRuns.AcceptsAreConserved | src/study_agent/artifacts/projection.py:180-268 | per artifact, accept decisions = superseded + accepted revisions, and exactly one is accepted once any accept exists |
| ArtifactRuns.SupersededOnce | src/study_agent/artifacts/projection.py:228-268 | no revision is superseded twice, nor by a decision on itself or on another artifact |
| ArtifactForest.ParentsFormForest | src/study_agent/artifacts/projection.py:409-417 | in every replayed state every parent exists and was created before its child |
| ArtifactForest.NoParentCycle | src/study_agent/artifacts/projection.py:80-116 | no artifact is its own ancestor, along a path of any length |
| ArtifactSnapshot.SnapshotAgrees | src/study_agent/artifacts/contracts.py:280-294 | for every listing order, the head found by set difference is the stored head, and service and reducer compute the same accepted predecessor |
| ArtifactSnapshot.AcceptedEntryExact | src/study_agent/artifacts/service.py:498-508 | the service's accepted-predecessor lookup equals the reducer's |
| ArtifactExport.ScanLoop | src/study_agent/application/artifact_export.py:54-75 | the stream loop computes the scan, stopping at the first disagreement with the snapshot |
| ArtifactExport.RenderLoop | src/study_agent/application/artifact_export.py:97-149 | the row loop computes the checked rows over the revisions seen so far |
| ArtifactExport.ArtifactRowsLoop | src/study_agent/application/artifact_export.py:42-149 | the whole export computes `ArtifactRows` |
| ExportAgreement.ReplayIsTraced | src/study_agent/application/artifact_export.py:54-88 | for every stream that replays, the ledger holds exactly the stream's proposals and decisions, in order |
| ExportAgreement.SupersededSetsAgree | src/study_agent/application/artifact_export.py:332-345 | the superseded sets named by decisions and stored in revisions are equal |
| ExportAgreement.StatusesAreTerminal | src/study_agent/application/artifact_export.py:308-329 | every revision's status matches its decision or the absence of one |
| ExportAgreement.ExportAgrees | src/study_agent/application/artifact_export.py:42-149 | for every stream that replays the export succeeds exactly when all links resolve; then it has one row per revision, equal to the stored one and with the decision event on it and its actor, and the sort moves nothing |
| ArtifactPrepare.PrepareLoop | src/study_agent/artifacts/service.py:344-412 | the preparation loop over `prepared`, `seen`, `resolved` computes `Prepare` |
| ArtifactPlacement.PreparesExactly | src/study_agent/artifacts/service.py:344-412 | the service prepares 1 to 24 items if and only if each goes to an artifact of its own and is either new under an earlier item or of its target's kind, with the target's head as prior and the target's parent where it names one; each is recorded with its content and provenance after that head and under that parent |
| ArtifactPrepare.SuccessorIsNew | src/study_agent/artifacts/projection.py:118-126 | a revision identity built on a lineage head is never already stored |
| ArtifactPrepare.CommandDecodes | src/study_agent/artifacts/events.py:131-219 | every batch a command prepares passes the decoder |
| ArtifactPrepare.PreparedBatchReduces | src/study_agent/artifacts/service.py:344-412 | the reducer accepts a prepared batch if and only if no proposal names an unresolved parent ordinal for a target without a durable parent |
| ArtifactPrepare.BuiltBatchReduces | src/study_agent/artifacts/events.py:131-219 | a prepared batch of a new command passes decoder and reducer if and only if its session is open, every item decodes, is grounded and (generated) of the run, and none has that shape |
| PreparedRuns.PreparedBatchReplays | src/study_agent/artifacts/projection.py:78-126 | the same if-and-only-if on every replayed stream, for the event appended next |
| PreparedRuns.PreparedBatchRefused | src/study_agent/artifacts/projection.py:108-112 | a concrete stream and a new, open, grounded command that the service prepares, whose proposal names a missing parent, and that does not replay |
| AssessmentInvariants.AssessKeeps | src/study_agent/assessments/projection.py:40-212 | every assessment event keeps: presentations quote an accepted or superseded revision, attempts fit their item, grades form chains, sequences are apart and in order |
| AssessmentRecords.RecordsAreTheStreams | src/study_agent/assessments/projection.py:40-212 | on every replayed stream the stored presentations, attempts, grades and contests are exactly those of the stream's events, each with every field of its own event; a grade is replaced if and only if a later event names it |
| AssessmentInvariants.OwnChainGrows | src/study_agent/assessments/projection.py:142-163 | a grade extends its attempt's supersession chain at the end and replaces exactly the active grade |
| AssessmentInvariants.ActiveIsLast | src/study_agent/assessments/projection.py:146-152 | the active grades of a chain are its last entry |
| AssessmentRuns.ReplayKeepsBook | src/study_agent/assessments/projection.py:40-212 | the assessment ledger of every stream that replays satisfies the invariant that `AssessKeeps` keeps |
| AssessmentRuns.GradesFormOneChain | src/study_agent/assessments/projection.py:120-187 | in every replayed state an attempt has no grade, or one supersession chain in its session with exactly the last active |
| AssessmentRuns.BooksOnlyGrow | src/study_agent/assessments/projection.py:267-284 | between any two points of a run no assessment record is removed or altered, except active to replaced |
| AssessmentRuns.ReplayKeepsIndex | src/study_agent/assessments/projection.py:40-212 | in every replayed state each presentation, attempt and grade carries the identity of an indexed command, so a new command's record never meets an old one |
| AssessmentRuns.PresentedWasAccepted | src/study_agent/assessments/projection.py:40-84 | what an event presents was accepted just before it, and in every later state is accepted or superseded with the content the presentation stores |
| ClosedGrading.ClosedGradingIsSetComparison | src/study_agent/assessments/grading.py:47-112 | for every admitted closed item and response the policy decides, and judges all criteria alike: met iff selected = expected, uncertain iff a proper non-empty subset (score strictly between 0 and 1), not met iff some unexpected option |
| ClosedGrading.ClosedResultsAreUnique | src/study_agent/assessments/grading.py:47-112 | one response has one grade: results and score that the set comparison allows are equal |
| ClosedGrading.SelectionIsSetComparison | src/study_agent/assessments/grading.py:56-89 | comparing canonical text is comparing option sets, with the exact scores |
| Evidence.LearnerEvidenceLoop | src/study_agent/assessments/evidence.py:123-214 | the nested loops filling the groups compute the projection, refusal included |
| Evidence.AddGrade | src/study_agent/assessments/evidence.py:129-199 | one grade adds exactly its references, and its contest's, to its format group and its criterion groups |
| EvidenceOrder.ByTimeRises | src/study_agent/assessments/evidence.py:128-128 | sorting any listing of grades by event sequence gives the same grades in strictly rising order |
| EvidenceOrder.GroupInOrder | src/study_agent/assessments/evidence.py:82-86 | a group is in event order if and only if no grade of the group lies strictly between another and its contest |
| EvidenceOrder.EvidenceSucceedsExactly | src/study_agent/assessments/evidence.py:123-214 | in every replayed state the projection succeeds if and only if no grade of the same format lies strictly between a grade and its last contest |
| EvidenceOrder.CriterionViolationIsFormatViolation | src/study_agent/assessments/evidence.py:82-92 | a criterion group out of order always puts a format group out of order |
| EvidenceTotals.FormatsTotalEffectiveScores | src/study_agent/assessments/evidence.py:132-148 | a format's numerator and denominator total exactly the scores of its grades that are active and in no contest |
| EvidenceTotals.CriteriaTotalEffectiveCriteria | src/study_agent/assessments/evidence.py:162-199 | the criterion groups total exactly the met criteria over the criteria of the grades that are active and in no contest |
| EvidenceTotals.EvidenceTotalsEffectiveGrades | src/study_agent/assessments/evidence.py:123-214 | in every replayed state where the projection succeeds, for every listing, format and criterion estimates total exactly the scores and the met criteria of the grades that are active and in no contest |
| EvidenceTotals.EvidenceSaysWhatItWeighs | src/study_agent/assessments/evidence.py:129-199 | in every replayed state each group refers once to each of its grades and to each contested grade's last contest, and to nothing else; a grade weighs its own score or criterion if and only if it is active and in no contest, a contest weighs nothing; every disposition follows lifecycle, status and score |
| EvidenceTotals.AttemptCountsOnce | src/study_agent/assessments/evidence.py:132-132 | in every replayed state at most one grade of an attempt is active and in no contest |
| DemoRun.EvidenceRefused | src/study_agent/assessments/evidence.py:149-161 | a run of the services that writes ten events within every service rule and whose projection raises in every listing |
| DemoRun.RetryThoughCommitted | src/study_agent/artifacts/service.py:104-107 | a run of two clients in which one is told to retry by its length check although its decision is in the stream |
| DemoRun.RetryOverAnother | src/study_agent/artifacts/service.py:104-107 | a run of two clients in which one is told to retry while its key names the other's decision and its own is not in the stream |
| DemoRun.ReadyYetRefused | src/study_agent/artifacts/service.py:134-222 | a run in which every check of a human revision passes, nothing interferes, and the append is refused |
| DemoRun.ReducersAloneAdmit | src/study_agent/assessments/projection.py:87-212 | a concrete stream the reducers accept that breaks all four service rules |
| EventStore.AppendKeepsConsistent | src/study_agent/adapters/sqlite/event_store.py:243-288 | a committed event extends the stream by itself and the stored projection stays its replay |
| EventStore.AppendKeepsLog | src/study_agent/adapters/sqlite/event_store.py:243-288 | a committed identity was new, and the command index stays exactly the stream's command events |
| EventStore.CourseStore.AppendEvent | src/study_agent/adapters/sqlite/event_store.py:229-288 | compare-and-append on the mutable store is `Append`; without a commit nothing changes |
| ServiceProtocol.OccurrencesExact | src/study_agent/assessments/service.py:427-435 | searching the stream finds nothing exactly when the identity is not in it |
| ServiceProtocol.StepKeeps | src/study_agent/artifacts/service.py:414-447 | a client's step keeps every client's standing, and changes the store only by committing its own event under a new identity |
| ServiceProtocol.RunsKeep | src/study_agent/assessments/service.py:437-489 | in every state of every run of any number of clients, checks passed at the expected length still hold at that length |
| ServiceProtocol.StreamIsContiguousAndIdempotent | src/study_agent/artifacts/service.py:95-132 | in every run the stream is contiguous, replays to the stored state, holds each command identity at most once, and holds every command that reported success |
| ServiceProtocol.CommittedIdentityNeverCommitsAgain | src/study_agent/artifacts/service.py:414-447 | a committed identity adds nothing again at any step, and a command reports success only when the committed event matches it as the code compares: by command fingerprint (a service decision by its target, a generated batch by its run), a presentation by its revision |
| CommandEvents.CommittedEventSays | src/study_agent/artifacts/service.py:414-447 | in every run a step that changes the store appends exactly one event, under a new identity, and its every field is what the command, the ledger and the book say (a closed grade: the criteria and score of the set comparison on the stored item and response); the command was eligible and landed |
| CommandDrafts.DraftsExactly | src/study_agent/artifacts/service.py:291-342 | in every replayed state and for every listing each of the nine commands is drafted if and only if its plain condition on ledger and book holds (a decision: proposed in the session, superseding nothing on reject and the accepted revision on accept), and the draft says what the command says |
| CommandEvents.SuccessIsRecorded | src/study_agent/assessments/service.py:437-489 | in every run a client that has reported success has an event of its very command in the stream |
| CommandEvents.TakenIdentityEndsTheCall | src/study_agent/artifacts/service.py:414-428 | in every run an identity check that finds its identity taken ends the call: success when the recorded event is of this very command, conflict when it is of another |
| ServiceProtocol.LostRaceIsResolved | src/study_agent/artifacts/service.py:431-447 | after a lost race: success iff the stream holds this command, conflict iff its identity is taken by another, retry iff it did not commit |
| ServiceCalls.StreamIsAppendOnly | src/study_agent/artifacts/service.py:431-447 | across a run every earlier stream is a prefix of every later one and no assessment record is lost |
| ServiceCalls.RetriedCallSucceeds | src/study_agent/assessments/service.py:164-191 | a call of any command that starts when the command is in the stream changes nothing and can finish only with success, or refused on a closed session, or, when a verified grade recovers an outcome that does not match its attempt, refused or in conflict |
| ServiceCalls.RetryableSteps | src/study_agent/artifacts/service.py:424-447 | a call is told to retry exactly when a length check finds the stream moved on or a lost race does not find the command |
| ServiceCalls.RetriedIdentityExactly | src/study_agent/artifacts/service.py:104-107 | a call told to retry changes nothing; its identity is in the stream nevertheless if and only if another client committed under that identity during the call, and then the length check answered |
| ServiceCalls.RetryMeansNotCommittedExactly | src/study_agent/artifacts/service.py:72-107 | the command of a call told to retry is in the stream nevertheless if and only if another client, running the same command, committed it during the call, that is, if and only if the event that other client committed carries the command out |
| ServiceVerdicts.AppendVerdict | src/study_agent/adapters/sqlite/event_store.py:229-288 | an event whose service checks all hold of the current state is committed if and only if: a batch has an open session, items that decode, are grounded and (generated) of the run, and no missing parent; a decision has an open session; a presented item's key encodes; a response decodes and fits; a verified score decodes; a contest reason is within bounds; an exact grade always |
| ServiceVerdicts.AppendIsDecided | src/study_agent/assessments/service.py:468-489 | in every run, a client that reaches its append before the stream moves commits exactly its event under that condition, and otherwise is refused with nothing changed |
| CommandOutcomes.CallEndsAsExpected | src/study_agent/assessments/service.py:106-411 | from any state of any run, for all nine commands: a call that meets no interference commits its event if and only if the command is eligible and lands; otherwise nothing changes, and it ends in success or conflict as the recorded event is or is not of this command, in conflict when a record or the rules for new grades exclude it, in refusal when something is missing or belongs to another session |
| ServiceProtocol.ExactRetryIsRecognised | src/study_agent/assessments/service.py:437-445 | an exact retry of a committed command is recognised at its identity check |
| ServiceRules.CommitObeys | src/study_agent/assessments/service.py:191-207 | whatever a service commits obeys its rule in the state it commits to |
| ServiceRules.ServicesKeepTheRules | src/study_agent/assessments/service.py:299-375 | in every run: one attempt per presentation, one contest per grade, one grade per verified run, and a superseded free-response grade was contested before |
| ServiceRules.ServiceDecisionsAreBound | src/study_agent/artifacts/service.py:242-342 | a decision that appends at its expected length is never vetoed, and a service decision's receipt is bound to the accepted predecessor of that very state |
| ServiceRules.CommittedReceiptsAreBound | src/study_agent/artifacts/projection.py:207-227 | on every replayed stream a committed service decision's receipt is bound to the accepted predecessor in the state just before it |
| CommandEvents.RetriedGradeIsRecognised | src/study_agent/assessments/service.py:209-375 | a grading command whose committed grade says what the command says on the state it was committed to drafts that very grade again on every later store and is recognised by it |
| ServiceRules.RetriedContestIsFound | src/study_agent/assessments/service.py:388-393 | in every run, the contest lookup behind a retried contest that is in the stream finds exactly one contest |
| ServiceRules.CommittedContestIsListed | src/study_agent/assessments/projection.py:190-212 | on every replayed stream a committed contest event has its contest in the book |
| ServiceExecution.Execute | src/study_agent/artifacts/service.py:291-342 | run alone on the mutable store, a command commits at most its own new event, success means it is in the stream, and a current expectation is never answered with retry |
| ServiceExecution.AppendDraft | src/study_agent/assessments/service.py:468-489 | the append step on the mutable store is the protocol's append step |
| Candidates.Admits | src/study_agent/artifacts/candidates.py:228-250 | the constructor accepts exactly the bounded batches with distinct keys and omissions whose parents are earlier candidates |
| Pipeline.LessonProposalsLoop | src/study_agent/artifacts/verified_batch.py:464-534 | the conversion of an admitted page succeeds if and only if it has a candidate and every candidate has no media, trusted evidence and a lesson role or its morphology; proposal i is then a new card with candidate i's text under its parent's position, generated by the run with that content as output |
| Pipeline.OrdinalsFollowKeys | src/study_agent/artifacts/verified_batch.py:479-497 | the parent ordinal is the position of the candidate with the parent key |
| Pipeline.FreshPrepares | src/study_agent/artifacts/service.py:377-411 | proposals for new artifacts always prepare, each under its ordinal's artifact and its parent ordinal's artifact |
| Pipeline.CandidateForestReachesLedger | src/study_agent/artifacts/verified_batch.py:464-534 | on every replayed stream a converted page is prepared, decodes and replays, and in every later state of the stream the candidate-key forest is the parent forest of the projected artifacts and each artifact's first revision holds its candidate's text |
| MorphologyPlans.CheckTopics | src/study_agent/capabilities/morphology_flashcards.py:137-148 | accepts exactly when plans and omissions partition the active topics and plans follow topic order |
| MorphologyPlans.CheckStars | src/study_agent/capabilities/morphology_flashcards.py:150-176 | accepts exactly when every plan is a one-macro star of at most three atomics and the plans partition the candidates; then every card is owned by its plan's topics |
| MorphologyPlans.CheckOmissions | src/study_agent/capabilities/morphology_flashcards.py:184-193 | accepts exactly when topic omissions and public omissions correspond one to one with equal evidence |
| MorphologyPlans.CheckCards | src/study_agent/capabilities/morphology_flashcards.py:195-209 | accepts exactly when every card cites only evidence of its own plan's topics, and media linked to that evidence |
| MorphologyPlans.Validate | src/study_agent/capabilities/morphology_flashcards.py:129-218 | the checker accepts exactly the drafts with partitioned topics, ordered star plans, distinct texts, matched omissions, grounded cards and canonical evidence |
| PlanRules.MorphologyAcceptsExactly | src/study_agent/capabilities/morphology_flashcards.py:129-218 | what the checker accepts, on the draft's own fields: topics in one plan or excluded once, plans by first topic, each card named by one star of a root macro and at most three atomics, texts apart, each exclusion stating its topic's evidence, each card citing its plan's topics, all evidence resolving |
| MorphologyPlans.CandidatesFormStars | src/study_agent/capabilities/morphology_flashcards.py:153-176 | in an accepted draft every candidate has one plan and is its parentless macro or an atomic under that macro |
| HybridPlans.WalkTopics | src/study_agent/capabilities/hybrid_flashcards.py:153-190 | the topic loop assigns exactly the planned topics to cards and pairs omissions, and stops only on a bad plan or a broken pairing |
| HybridPlans.CheckEvidence | src/study_agent/capabilities/hybrid_flashcards.py:187-203 | accepts exactly when every card has a topic and cites only its topics' evidence |
| HybridPlans.CheckHierarchy | src/study_agent/capabilities/hybrid_flashcards.py:482-510 | accepts exactly the two-level forests of direct-recall cards with sections first and details under earlier sections |
| HybridPlans.CheckTexts | src/study_agent/capabilities/hybrid_flashcards.py:526-547 | accepts exactly when prompts and answers are present, texts distinct, and no card is contained in another |
| HybridPlans.Validate | src/study_agent/capabilities/hybrid_flashcards.py:136-231 | the checker accepts exactly the drafts whose reason-bearing topics and public omissions are in bijection, cards within evidence, in a two-level forest, with bases for exactly the details, texts apart and evidence canonical |
| PlanRules.HybridAcceptsExactly | src/study_agent/capabilities/hybrid_flashcards.py:136-231 | what the checker accepts, on the draft's own fields: cards or a reason for every generating topic, reasons and omissions paired with equal evidence, each card citing its topics, sections before their details, no prompt and answer pieces of another card's |
| VerifiedGrading.ParseDraft | src/study_agent/assessments/grade_scope.py:291-339 | a draft is accepted exactly when bounded and every judgement has trimmed texts, a confidence in range and evidence that fits its status |
| VerifiedGrading.RecoverLoop | src/study_agent/assessments/verified_grading.py:516-572 | the recovery loop computes `Recover` |
| VerifiedGrading.RecoveryExactly | src/study_agent/assessments/verified_grading.py:516-572 | recovery accepts an output if and only if its criteria are the rubric's in order with recordable texts, its score counts the met ones and its status follows; each result keeps its judgement's criterion, status and rationale |
| VerifiedGrading.RecoveryAcceptsExactlyTheDerivedGrade | src/study_agent/assessments/verified_grading.py:545-572 | recovery accepts an output for drafted criteria if and only if its status and score are the derived ones, and returns them unchanged |
| VerifiedGrading.DerivedGradeIsSound | src/study_agent/assessments/grade_scope.py:342-357 | ungradable scores zero with every criterion uncertain, graded leaves nothing uncertain, and a grade under review is below full score |
| VerifiedGrading.DerivedGradeFollowsJudgements | src/study_agent/assessments/grade_scope.py:342-357 | a derived grade keeps the judgements, scores the met criteria over all, is ungradable iff all evidence is insufficient and otherwise under review iff some criterion is uncertain |
| OwnerRegistry.SuccessfulCallersAgree | src/study_agent/artifacts/generated_owner.py:262-289 | under any interleaving all successful creators and loaders of a run get one owner, at any two times |
| OwnerRegistry.EveryAccessAnswers | src/study_agent/artifacts/generated_owner.py:262-289 | in every state of every interleaving a loader gets the owner of its run, or raises iff the run has none, and a creator that lost the claim gets its own owner, or raises iff the run is another's |
| OwnerRegistry.CreatorGetsItsOwn | src/study_agent/assessments/verified_grading.py:196-205 | a creator succeeds with its own owner unless the run belongs to another, and never rewrites a slot |
| OwnerRegistry.OwnerStore.Create | src/study_agent/assessments/verified_grading.py:196-205 | the same on the mutable store |
| OwnerRegistry.OwnerStore.Load | src/study_agent/assessments/verified_grading.py:207-213 | loading returns the slot's owner, or raises when there is none |

## Left out

- Digests and canonical JSON: SHA-256 identities are the tuples they digest and JSON text is what it parses to, so both are injective by construction (all non-canonical spellings of one array are identified; only a multiple-choice key is read as an array, and there every such spelling is refused); codecs, length bounds, text normalisation and secret-marker checks are not modelled.
- Sessions, study context and sources: their reducers are not modelled. `World` holds the open sessions and the provenance that resolves (commitments, selection, interaction); a context event may replace it with any value.
- Course identity, timestamps, principals' names, correlation ids, model and validator pins: carried data that no rule branches on. One course, one stream.
- `_validate_existing` in both reducers: guards against a corrupt stored projection, which a fold from the empty state never produces.
- Store batches: `append` takes one event at a time, as every service uses it; SQLite transactions are taken as atomic.
- Services as objects: a command is a program of atomic steps over the shared store. `ServiceExecution.Execute` gives the in-place form of one command running alone; the interleaved form is on values. What the proof port, the decision policy and the grading port return is an arbitrary parameter of the command.
- Command result values: a success returns a view of the state; the model records the outcome only. Of the errors it keeps the class: conflict, retryable conflict, or any other refusal.
- ServiceProtocol.ExactRetryIsRecognised: covers the commands known by a fingerprint before any state is read; the two grading commands, which read first, are covered by `CommandEvents.RetriedGradeIsRecognised`.
- Evidence estimates: held as a map by group; the canonical order of the groups and the criterion key digest are not modelled.
- Closed grading policy: policy fingerprint and version are one constant.
- Exam proposals: one proposal without a parent, nothing to carry.
- Morphology and hybrid checkers: text normalisation and the canonical text of a candidate are given as fields; what the content and media ports resolve is a parameter; the two morphology fields are one flag.
- Verified grading: evidence resolution, owner and worker commitments; the secret-marker guard of the criterion record is a set of admitted texts.
- Capability gateway, worker adapters, command line, demo hosts, filesystem and retrieval index.
