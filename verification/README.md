# Exam node: a verified model

An exam node runs the sittings of delegated exams: it loads exam bundles from Central, serves their content, lets
students start, answer and submit, applies Central's reset commands and roster events, and harvests the finished
sittings back. This project models that behaviour in Dafny and proves what the node promises about it.
`dafny verify dfyconfig.toml` checks everything.

## How it is modelled

Tables are maps from primary keys to rows (`Entities`). Every transaction and every single SQL statement is one atomic
step; whatever the code does between two of them is a separate step that any other may precede. Three layers follow the
program:

- **Specification functions** say what one transaction or statement leaves and replies (`AttemptModel`,
  `AttemptUseCases`, `RosterModel`, `BundleModel`, `ContentModel`). What each operation answers is also told from the
  columns and the clock alone, and proved of these functions and the methods: `AttemptUseCases` (submission, state read,
  autosave, start), `RosterOutcomes` (roster events), `ResetOutcomes` (resets and previews), `Payloads` (what a harvest
  reports), `ContentModel.ShowsItems` (what students see), `BundleService` (what a load stores), and the readings of the
  JSON values in `Grading`.
- **Classes** follow the code's own objects and loops over a mutable repository (`NodeRepository`, `AttemptService`,
  `AttemptResetService`, `SweeperService`, `HarvestService`, `ContentService`, `BundleService`, `RosterService`,
  `RosterWorker`, `RateLimiter`, `IntegrityService`). Each method is proved to leave exactly what its specification
  function says. `ServiceRuns` proves that each attempt use case, `SweepRuns` that a sweep, and `HarvestService` itself
  that a drain is a run of the machine below, in which the harvest lists, reads, pushes and marks exactly what the drain
  reports (`HarvestSteps`).
- **Machines** interleave the atomic steps without restriction, and the main theorems hold of every run:
  - `SittingMachine`: start, bind, autosave (check, then write), submit, sweep, reset, preview, and a harvest split
    into list, read, push, mark, against a Central that replies as it likes. `SittingInvariant`, `SittingSteps`,
    `SittingHistory`, `ResetHistory`, `LateAnswers`, `LateDelivery`, `LateAnswerRun`, `MapperGap` and `ResetExamples`
    prove what holds of its runs.
  - `ContentProtocol`: loads, rollbacks and reloads as threads with program counters over database, cache, unready
    marks, generations and per-exam locks. `ContentTokens` proves the order of publications, `ContentSurvival` how
    long one lasts.
  - `RosterLog` and `RosterWorker`: Central's revisioned log per deployment, and the worker that pulls, pages,
    replays and acknowledges. `RosterInvariant` proves what each event keeps, `RosterExample` what a stray event
    breaks, `RosterSittings` and `SittingRoster` that sittings and rosters leave each other in order.

`Grading`, `Answers`, `Overwrites`, `ContentHash`, `BundleHash`, `BundleReload`, `Sorting` and `HarvestProperties` hold
the sequential parts and their laws.

## Where the code and its documentation differ

The model follows the code.

- `README.md:154` gives the start window as `now < ends_at`; `app/service/attempt_service.go:76` admits
  `now == EndsAt`. `AttemptUseCases.AdmittedIff` states the exact window; such a sitting is due at once.
- `app/service/harvest_service.go:16-17` says that a forced drain drains the remainder of a long backlog. The loop
  pushes one batch per deployment, and a reply that neither accepts nor rejects is no error, so a final drain without
  an error may leave attempts behind. `HarvestProperties.CleanFinalDrainIff` gives the exact condition, and
  `CleanDrains` the runs that fail it.
- `app/service/attempt_finalizer.go:12-14` has finalisation serialised with answer writes. `AutosaveAnswer` checks the
  status and writes in two steps outside any transaction, so a write can land after the sitting was finished.
  `LateAnswers.FinishedAnswersFrozenIff` says exactly when, and `LateAnswerRun` gives a run that loses an answer. A late
  write need not lose anything: it may land before the payload is read, or show what was read.
  `LateDelivery.NoLostWork` says exactly in which runs a harvested sitting's stored answers were accepted, and
  `LateDelivery.ScoreIsTotal` in which its score is still their total. All runs in which an autosave is one step are
  among both (`LateAnswers.WholeAutosavesAreTimely`).
- `app/service/content_service.go:186-189` has a reload republish the current snapshot. It cleans up by the listing it
  began with (`content_service.go:225-236`), so an exam loaded meanwhile is forgotten and the node unready until the next
  load or reload. `ContentSurvival.ServedIff` says exactly which steps take an exam's service away.
- A repeated preview is promised the recorded metadata (`app/service/attempt_reset_service_test.go:324-345`). One whose
  command names an attempt conflicts instead (`ResetHistory.PreviewReplaysIff`, `ResetExamples.PreviewConflictsWithItself`).
- Resets compare the participant's deployment, which the persistence mapper never fills. The machine keeps the
  column at entity level; `MapperGap` proves what follows while it is empty, and that filling it is exactly what a
  refused command waits for.
- A roster event addressed to another exam's deployment takes one of that deployment's revisions
  (`app/service/roster_service.go:61-64`), so that exam's own event later finds its slot taken.
  `RosterInvariant.RosterKeptIff` says exactly when this happens, `RosterExample` shows it.
- `app/adapter/persistence/repository/node_repository.go:587-589` has reloading a bundle idempotent, and
  `app/service/bundle_service.go:129` hashes the bundle for the rows it stores. Nothing refuses a bundle that lists a
  retained participant twice; its last row is stored. `BundleHash.LoadedHashIff` and `BundleReload.ReplaceReloads` say
  exactly when hash and idempotence hold, with a concrete bundle each that fails.

## Model

| member | source | states |
|---|---|---|
| `SittingHistory.HarvestedWasAccepted` | app/service/harvest_service.go:174-290 | in every reachable state a row marked harvested is finished, and Central accepted a payload that, column by column, carries its identity, status, present generation and times, whatever ran between listing, reading, pushing and marking and whatever Central replied |
| `LateDelivery.NoLostWork` | app/service/harvest_service.go:174-290 | no lost work, exactly: over every run, Central accepted a payload with a harvested row's present generation, status and times and, one by one, the identifier, item, content, text, score, grading status and save time of each stored answer if and only if some accepted payload of that generation was read in the run and the writes landed since repeat what was read |
| `LateDelivery.MarkDeliversIff` | app/service/harvest_service.go:264-290 | a newly marked row has its stored answers accepted, column by column, if and only if the run before the mark meets that condition |
| `LateDelivery.StepDeliversIff` | app/service/attempt_service.go:218-256 | a delivered harvested sitting stays delivered over a step unless, and only unless, a late write lands on it that makes its answers show what Central has not accepted |
| `LateDelivery.AnswersSince` | app/adapter/persistence/repository/node_repository.go:223-254 | the stored answers are those stored at any earlier step of the run, overwritten by what landed since |
| `Overwrites.ShownIffRepeats` | app/service/harvest_service.go:202-208 | landed writes leave what the harvest reports unchanged if and only if every write that decides its item repeats what was stored, sequence, maximum score and attempt aside |
| `Overwrites.DecidedRow` | app/adapter/persistence/repository/node_repository.go:223-254 | of several writes landing on an item the fresh one with the largest sequence decides its row, under the stored key |
| `Overwrites.WritesCancel` | app/adapter/persistence/repository/node_repository.go:223-254 | two landed writes can cancel out: the first changes what is reported, the second restores it |
| `Payloads.ReportsIff` | app/service/harvest_service.go:187-208 | a payload that carries, column by column, the attempt's identity, status, generation and times and exactly the given answers in order is the one the harvest builds, and no other is |
| `Payloads.ReportedAlikeIff` | app/service/harvest_service.go:198-207 | two answer lists are reported alike if and only if they differ in attempt, client sequence and maximum score at most |
| `LateAnswers.TimelyRunDelivers` | app/service/harvest_service.go:174-290 | in every run whose autosave writes land before their sitting is finished, or are stale by then, a harvested row's stored answers were accepted, every reported column of them |
| `LateAnswers.FinishedAnswersFrozenIff` | app/service/attempt_service.go:218-256 | one step changes the stored answers of a finished sitting if and only if a checked, newer autosave write lands on it |
| `LateAnswerRun.LateAnswerIsLost` | app/service/attempt_service.go:218-256 | a concrete run of eight steps from an initial node: the row is marked harvested and no payload Central accepted carries its stored answers |
| `LateAnswers.WholeAutosavesAreTimely` | app/service/attempt_service.go:218-256 | a run in which no step comes between an autosave's check and its write is timely, so no lost work and score totals hold of it without further condition |
| `LateDelivery.ScoreDrift` | app/service/attempt_finalizer.go:48-66 | over every run the score of a finished sitting is the total of its stored answers less what late writes added since it was finalised |
| `LateDelivery.ScoreIsTotal` | app/service/attempt_finalizer.go:48-66 | the score is the total of the stored answers if and only if late writes added nothing to it |
| `LateAnswers.TimelyScore` | app/service/attempt_finalizer.go:48-66 | in every timely run the score of a finished sitting is the total of its stored answers |
| `LateAnswers.StepFinishesWell` | app/service/attempt_finalizer.go:35-72 | every step, of whatever kind, that finishes a sitting records the total of the answers stored at that instant and auto-submits only past the due time |
| `LateAnswers.AutoSubmittedLate` | app/service/sweeper_service.go:44-76 | over every run each auto-submitted row carries an auto-submission time later than its due time |
| `SittingHistory.OneWinnerPerGeneration` | app/adapter/persistence/repository/node_repository.go:256-276 | submit, sweeper, state read and restart together finalise each past generation of an attempt exactly once, and the present one exactly once when it is finished |
| `SittingHistory.FinalisationsConserved` | app/service/attempt_finalizer.go:35-72 | over every run the number of finalisations of an attempt is its reset generation, plus one if it is finished |
| `SittingHistory.RowsEvolve` | app/adapter/persistence/repository/node_repository.go:256-304 | from any state in order to any later one a row keeps its window, number, owner and nonempty device, its generation never falls, and within one generation a finished row changes in its harvest mark only |
| `SittingHistory.WindowFixed` | app/service/attempt_service.go:119-176 | start, due time, attempt number and a nonempty device never change, and in every reachable state the due time is exactly the earlier of start plus duration and exam end |
| `SittingHistory.OneSittingAtATime` | app/service/attempt_service.go:127-191 | in every reachable state the attempt numbers of a participant are exactly 1..AttemptCount, within MaxAttempts; any open attempt is the one LatestAttemptID names; LatestAttemptID is the descending-number lookup |
| `SittingHistory.ScoresBounded` | app/service/attempt_service.go:282-298 | every finished sitting scores between 0 and the points of its exam's items, and needs manual grading if and only if the exam has a manual item |
| `SittingMachine.StepKeeps` | app/service/attempt_service.go:66-280 | every atomic step of start, bind, autosave, submit, expiry, reset, preview and split harvest, in any order, keeps the node's invariant |
| `SittingMachine.StepRows` | app/adapter/persistence/repository/node_repository.go:256-304 | every step moves existing rows only in the allowed ways, creates only open rows of generation 0, fixes the bundle and never changes a receipt |
| `SittingMachine.MarkedWasAccepted` | app/adapter/persistence/repository/node_repository.go:477-499 | a row the marking statement marks has the generation Central accepted; an older generation is never marked |
| `SittingInvariant.SingleSitting` | app/adapter/persistence/repository/node_repository.go:145-156 | two open attempts of one participant are one attempt, the latest |
| `SittingInvariant.LatestAgrees` | app/adapter/persistence/repository/node_repository.go:705-717 | the attempt_no DESC lookup finds exactly what LatestAttemptID names, including none |
| `SittingInvariant.StartKeeps` | app/service/attempt_service.go:127-191 | the start transaction, resuming, refusing, closing and creating included, keeps counters, numbers, places, windows, answers and receipts in order |
| `SittingInvariant.ReopenEffect` | app/service/attempt_reset_service.go:98-163 | an applied reset found its target latest, finished, of the expected generation and strictly inside deadline, due time and exam window, and rewrites that one row and its own receipt and nothing else |
| `SittingInvariant.NotAppliedEffect` | app/service/attempt_reset_service.go:362-392 | a command that is refused or finds the sitting open settles its own receipt and changes no other table |
| `SittingInvariant.ResetKeeps` | app/service/attempt_reset_service.go:47-169 | a reset command, of whatever content and time, keeps the invariant, generation counts and receipts included |
| `SittingInvariant.PreviewEffect` | app/service/attempt_reset_service.go:175-260 | a preview writes its own receipt and nothing else |
| `SittingInvariant.PreviewKeeps` | app/service/attempt_reset_service.go:175-260 | a preview keeps the invariant |
| `SittingInvariant.TotalsOk` | app/service/attempt_service.go:282-298 | answers unique per item and graded from the exam's items total between 0 and its maximum, and need a human only if the exam does |
| `SittingSteps.StartTransactionMoves` | app/service/attempt_service.go:127-191 | a start freezes every finished row, keeps every window and device, and touches no answer and no receipt |
| `SittingSteps.ResetTransaction` | app/service/attempt_reset_service.go:47-169 | a reset may only turn a finished row into an open one of the next generation; stored receipts stay as they are |
| `ResetHistory.GenerationsAreResets` | app/service/attempt_reset_service.go:151-163 | in every reachable state an attempt's generation is the number of applied resets that target it, each generation 1..n was produced by exactly one request, and no stored operation is pending |
| `ResetHistory.ResetReplays` | app/service/attempt_reset_service.go:58-69 | resubmitting an accepted reset after any further run, at any time, returns the same outcome and writes nothing |
| `ResetHistory.PreviewReplaysIff` | app/service/attempt_reset_service.go:345-360 | resubmitting an accepted preview returns the same outcome if and only if the command names no attempt; otherwise it conflicts; it never writes |
| `ResetHistory.RacingResets` | app/adapter/persistence/repository/node_repository.go:281-304 | two applied resets of one attempt that expected the same generation are one request |
| `ResetHistory.ReceiptsForever` | app/adapter/persistence/repository/node_repository.go:550-576 | no later step changes or removes a settled operation |
| `ResetHistory.AppliedInTime` | app/service/attempt_reset_service.go:131-163 | a reset applied by a step was written strictly before command deadline, due time and exam end, on the latest attempt, and changed no participant and no answer |
| `MapperGap.ResetsNeverReopen` | app/adapter/persistence/mapper/node_mapper.go:48-53 | while participants are read back without a deployment, in every run no reset command changes any attempt |
| `MapperGap.RefusedUnfilled` | app/service/attempt_reset_service.go:112-116 | every new valid command for participants without a deployment is refused |
| `MapperGap.ReopensIffFilled` | app/service/attempt_reset_service.go:112-116 | a command that would reopen with the participant's deployment filled in reopens if and only if it is filled, and else conflicts on its target |
| `MapperGap.AppliesIffFilled` | app/service/attempt_reset_service.go:47-169 | such a command is applied by the whole transaction if and only if the column is filled; otherwise no attempt changes |
| `MapperGap.PreviewReportsIffFilled` | app/service/attempt_reset_service.go:226-254 | a preview that would report its attempt with the column filled reports it if and only if it is |
| `ResetExamples.ResetWaitsForDeployment` | app/service/attempt_reset_service.go:112-116 | a concrete reset of a submitted sitting: applied with the deployment filled in, refused as the mapper reads the row |
| `ResetExamples.PreviewConflictsWithItself` | app/service/attempt_reset_service.go:345-360 | a concrete preview of a started sitting that reports the attempt it names, and conflicts when repeated |
| `AttemptService.FinalizeAttempt` | app/service/attempt_finalizer.go:15-72 | leaves the tables, and returns the row and winner flag, of the finalising transaction: an open row only, once, with the stored answers' total |
| `AttemptService.CloseAndCreate` | app/service/attempt_service.go:154-189 | closes the expired sitting and creates the next one, or returns another open one; on failure the transaction is rolled back to its beginning |
| `AttemptService.StartLocked` | app/service/attempt_service.go:127-191 | the whole start transaction, decided again under the participant's lock |
| `AttemptService.Service.StartAttempt` | app/service/attempt_service.go:66-193 | tables and reply of a start: device and window checks, the pre-transaction bind and close, then the transaction; and the same told from the columns alone |
| `AttemptService.Service.GetAttemptState` | app/service/attempt_service.go:195-216 | tables and reply of a state read, which closes exactly an open sitting past its due time and replies with the row and its stored answers |
| `AttemptService.Service.SubmitAttempt` | app/service/attempt_service.go:258-280 | the caller's open attempt is submitted at the clock with its stored answers' total if and only if now is not past its due time, and is otherwise refused as expired; a finished attempt is returned as it is; nothing else is written |
| `AttemptService.Service.AutosaveAnswer` | app/service/attempt_service.go:218-256 | an uninterrupted autosave stores exactly what was sent, with its grade, for the caller's open attempt not past its due time, an item of its exam and a sequence newer than the stored one; everything else is refused with its own error and writes nothing |
| `AttemptUseCases.AdmittedIff` | app/service/attempt_service.go:76-78 | a participant with attempts left and no open sitting is admitted if and only if StartsAt <= now <= EndsAt; at EndsAt the sitting is due at once |
| `AttemptUseCases.SubmitOkIff` | app/service/attempt_service.go:258-280 | a submission of the caller's open attempt whose exam is loaded succeeds if and only if now is not past the due time; then exactly that row becomes submitted at the clock with its stored answers' total, and any refusal writes nothing |
| `AttemptUseCases.StateReads` | app/service/attempt_service.go:195-216 | a state read replies with the row and its stored answers; exactly an open row past its due time is first auto-submitted with their total |
| `AttemptUseCases.AutosaveStores` | app/service/attempt_service.go:218-256 | what an accepted autosave stores is the sent content, text and sequence, with the grade, under the old row's key if the item has one; it is refused as stale exactly when an equal or larger sequence is stored, and refusals write nothing |
| `AttemptUseCases.StartStarts` | app/service/attempt_service.go:66-193 | what a start does, told from the columns: which error is given when; an open sitting is returned, bound to the device if unbound; past its due time it is auto-submitted and the next one created, due at the earlier of start plus duration and exam end |
| `ServiceRuns.StartIsRun` | app/service/attempt_service.go:66-193 | an uninterrupted start is a named run of the machine (bind if unbound; close and create past the due time; or create), so every theorem about runs holds of it |
| `ServiceRuns.StartOverIsRun` | app/service/attempt_service.go:90-118 | the run of a start that finds an active sitting: nothing if another device holds it, else its binding, and past the due time its closing and the next start |
| `ServiceRuns.GetStateIsRun` | app/service/attempt_service.go:195-216 | a state read is the run that sees, waits and closes if the caller's open attempt is past its due time, and the empty run otherwise |
| `ServiceRuns.SubmitIsRun` | app/service/attempt_service.go:258-280 | a submission is the single submitting step if the caller's attempt is open and not past its due time, and the empty run otherwise |
| `ServiceRuns.AutosaveIsRun` | app/service/attempt_service.go:218-256 | an autosave is its check followed by its write if the check passes, and the empty run otherwise |
| `AttemptResetService.Service.OpenOperation` | app/service/attempt_reset_service.go:58-75 | a settled operation of the same command is answered from its receipt, another command conflicts, a new one is stored pending |
| `AttemptResetService.Service.ExecuteReset` | app/service/attempt_reset_service.go:77-163 | the checks in order over the stored rows, ending in the model's verdict, tables and outcome |
| `AttemptResetService.Service.ApplyReset` | app/service/attempt_reset_service.go:47-169 | tables and reply of the reset transaction, although the pending operation is stored before the checks |
| `AttemptResetService.OwnOperation` | app/service/attempt_reset_service.go:71-75 | the pending operation stored first changes neither the decision nor what is finally left |
| `ResetOutcomes.ResetAppliedIff` | app/service/attempt_reset_service.go:47-169 | a new, complete reset is applied if and only if exam, deployment, fence, participant, student, latest attempt, generation, due and submission times and status all match and both clock readings are before deadline, due time and exam end; then that row alone is reopened under the next generation and reported so; otherwise no attempt changes; it reports the sitting as already open exactly when that was expected |
| `ResetOutcomes.IncompleteRefused` | app/service/attempt_reset_service.go:47-75 | a new reset command is refused without a trace if and only if it is not complete |
| `ResetOutcomes.PreviewReadyIff` | app/service/attempt_reset_service.go:175-260 | a new, complete preview is ready if and only if exam, deployment, fence and participant match before the deadline and the participant's pointer names the latest attempt, whose columns it reports |
| `AttemptResetService.Service.PreviewReset` | app/service/attempt_reset_service.go:175-260 | tables and reply of the preview transaction |
| `SweeperService.Service.SweepExpiredAttempts` | app/service/sweeper_service.go:44-76 | every expired sitting is finalised once at its own instant, no other row changes, and swept plus failed are all of the expired ones |
| `SweeperService.NothingLeftOpen` | app/service/sweeper_service.go:44-76 | while the tables are in order a sweep fails on nothing, and afterwards no open sitting has a due time before the sweep's instant |
| `SweeperService.SweptRowIs` | app/service/sweeper_service.go:44-76 | a sweep auto-submits, each at its own instant and with its stored answers' total, exactly the open rows past their due time whose exam is loaded |
| `HarvestService.Service.BuildPayload` | app/service/harvest_service.go:187-208 | the payload has the row's identity, status, generation and times, and as many answers as are stored, each with the identifier, item, content, text, score, grading status and save time of the stored one in its place |
| `HarvestService.Service.ValidateAck` | app/service/harvest_service.go:241-263 | the accepted identifiers are duplicate-free and exactly those sent, acknowledged and not also rejected |
| `HarvestService.Service.CollectGenerations` | app/service/harvest_service.go:264-273 | each accepted attempt maps to the generation it was sent with |
| `HarvestService.Service.BuildBatch` | app/service/harvest_service.go:181-214 | each payload reports its row and exactly the answers stored when its turn comes, other transactions running before each; in the run of the machine these readings, in this order, are all the harvest does |
| `HarvestService.Service.SendBatch` | app/service/harvest_service.go:174-233 | one push of the head of the group, at most 500 attempts; in the run the harvest reads those answers and pushes that batch once, credits Central with what its reply accepts and queues the sent generations for marking |
| `HarvestService.Service.DrainDeployment` | app/service/harvest_service.go:174-308 | that push; then exactly the acknowledged rows that are still finished, unharvested and of the sent generation are marked; count and error follow; in the run the harvest reads, pushes and marks exactly this, on exactly these tables |
| `HarvestService.Service.DrainGroup` | app/service/harvest_service.go:133-158 | the batching loop pushes a deployment's group exactly once, whatever its size; the tables gain exactly the marks it reports, and the run holds no other push and no other marking |
| `HarvestService.Service.GroupByDeployment` | app/service/harvest_service.go:102-129 | every listed attempt goes to its exam's deployment in listing order, or is counted as unresolved |
| `HarvestService.Service.DrainLocked` | app/service/harvest_service.go:71-170 | lists exactly the submitted and auto-submitted rows without a harvest mark, visits the deployments in strictly increasing order, one push each, and reports unresolved and failed ones; the run's listing, readings, pushes and markings are exactly those reported, and Central is credited with exactly what its replies accept |
| `HarvestService.Service.Drain` | app/service/harvest_service.go:60-69 | nothing is pushed or marked while an expired sitting cannot be finalised; otherwise everything that had expired is listed; with whatever other transactions do between its statements the whole drain is a run of the machine that leaves the node as it is, whose harvest steps are exactly the reported listing, readings, pushes and markings, and whose Central gained exactly what the replies accept |
| `SweepRuns.SweepIsRun` | app/service/sweeper_service.go:44-76 | an uninterrupted sweep, each sitting finalised at its own instant, is a run of the machine |
| `HarvestService.Service.SortedKeys` | app/service/harvest_service.go:310-323 | exactly the map's keys, strictly increasing |
| `HarvestService.ExchangeSort` | app/service/harvest_service.go:315-321 | the in-place exchange sort orders the array and permutes it |
| `HarvestProperties.ExactlyOneGroup` | app/service/harvest_service.go:102-129 | a listed attempt is in the group of its own exam's deployment, or among the unresolved, and in no other |
| `HarvestProperties.GroupsCoverListing` | app/service/harvest_service.go:102-129 | the sizes of all groups and of the unresolved add up to the listing |
| `HarvestProperties.OnePushPerDeployment` | app/service/harvest_service.go:131-158 | no deployment is pushed twice in a drain; a push holds at most 500 attempts, each describing a listed one whose own exam names that deployment |
| `HarvestProperties.VisitedIff` | app/service/harvest_service.go:83-131 | a drain pushes to a deployment if and only if a listed attempt's exam names it or, on the final drain, any exam does; an exam that names none but blanks stops exactly the final drain, before its first push |
| `HarvestProperties.CleanOutcomeIff` | app/service/harvest_service.go:241-308 | a deployment's drain reports no error if and only if Central replied, every acknowledged attempt still stood as it was sent when marked, and a final push had nothing rejected; it then counts exactly the acknowledged attempts |
| `HarvestProperties.MarkedAsSent` | app/service/harvest_service.go:264-290 | whoever gains a harvest mark in a drain's run was in one of its pushes and accepted by the reply to it, and the marking statement found the row finished, unharvested and of the generation sent |
| `HarvestService.PushAsMachine` | app/service/harvest_service.go:241-273 | after a push the machine is told to mark exactly the generations the drain marks, and credits Central with exactly the payloads its reply accepts |
| `HarvestSteps.HarvestedByMarks` | app/service/harvest_service.go:264-290 | over any run the attempts that gain a harvest mark are exactly those its marking statements find finished, unharvested and of the generation to mark |
| `HarvestProperties.HarvestedIsMarked` | app/service/harvest_service.go:131-170 | the attempts that gain a harvest mark in a drain's run are exactly those its outcomes count as marked |
| `HarvestProperties.TotalWithinMarked` | app/service/harvest_service.go:150-170 | the total a drain returns never exceeds the attempts that gained a harvest mark in its run, and is exactly their number when no deployment failed |
| `HarvestProperties.GroupMarkedIff` | app/service/harvest_service.go:144-158 | a deployment drained without error has, in that run, all of its group marked if and only if the group fits one batch and Central accepted all of it |
| `HarvestProperties.CleanFinalDrainIff` | app/service/harvest_service.go:56-58 | in the run of a final drain without error every listed attempt gained its mark if and only if every group fits one batch and is wholly accepted |
| `CleanDrains.CleanDrainLeaves` | app/service/harvest_service.go:144-170 | a run for every number of sittings and every reply without rejections: from a loaded node the students join, start and submit, a final drain lists, reads, pushes, marks and ends without error, and the sittings it leaves finished and unharvested are exactly those not acknowledged or beyond the first batch |
| `CleanDrains.SilentCentralLeavesWork` | app/service/harvest_service.go:294-307 | the run with one sitting and a reply that neither accepts nor rejects: the final drain is clean, the sitting stays finished and unharvested |
| `CleanDrains.OverfullGroupLeavesWork` | app/service/harvest_service.go:16-18 | the run with 501 sittings, everything pushed being acknowledged: the final drain is clean, the last sitting stays finished and unharvested |
| `NodeRepository.Repository.UpdateAttempt` | app/adapter/persistence/repository/node_repository.go:256-276 | writes the mutable columns of an open row, or fails and writes nothing |
| `NodeRepository.Repository.ResetAttempt` | app/adapter/persistence/repository/node_repository.go:281-304 | reopens a row of the expected status and generation and clears its harvest mark, or fails and writes nothing |
| `NodeRepository.Repository.BindAttemptDevice` | app/adapter/persistence/repository/node_repository.go:306-325 | sets the device of an open row that has none or this one, or fails and writes nothing |
| `NodeRepository.Repository.UpsertAnswer` | app/port/outbound/repository/node_repository.go:57-60 | one guarded replace keyed by attempt and item; stale exactly when the stored sequence is equal or larger |
| `NodeRepository.Repository.MarkAttemptsHarvestedForGeneration` | app/adapter/persistence/repository/node_repository.go:477-499 | sets the harvest time of exactly the finished unharvested rows whose generation is the given one, and of no other row or column, and returns how many |
| `NodeRepository.Repository.FindActiveAttempt` | app/adapter/persistence/repository/node_repository.go:145-156 | returns an open attempt if there is one: the only one, while the tables are in order |
| `NodeRepository.Repository.FindLatestAttempt` | app/adapter/persistence/repository/node_repository.go:705-717 | returns the attempt with the largest number |
| `NodeRepository.Repository.InsertParticipantIfAbsent` | app/adapter/persistence/repository/node_repository.go:77-96 | an existing student is returned, a taken key conflicts, otherwise exactly one row is added |
| `NodeRepository.Repository.InsertReceipt` | app/adapter/persistence/repository/node_repository.go:65-75 | adds the receipt unless its event or its deployment's revision has one |
| `NodeRepository.Repository.UpdateNames` | app/adapter/persistence/repository/node_repository.go:624-635 | renews the names of a retained participant unless a unique key is taken |
| `NodeRepository.Repository.ReconcileRoster` | app/adapter/persistence/repository/node_repository.go:613-651 | the update loop, the delete loop and the bulk insert leave the reconciled roster, or fail |
| `NodeRepository.Repository.ReplaceBundle` | app/adapter/persistence/repository/node_repository.go:590-657 | the statements in order leave the replaced bundle, or fail |
| `ContentProtocol.ServedIsStored` | app/service/content_service.go:283-294 | under any interleaving of loads, rollbacks and reloads, whatever is served for an exam has its committed items' number and order, and every student-facing column of each |
| `ContentProtocol.KeysNeverServed` | app/service/content_service.go:138-140 | two nodes, whatever ran on each, whose committed items differ in answer keys and rubrics at most serve the same content |
| `ContentProtocol.ReadyMeansServable` | app/adapter/delivery/router/readiness.go:36-64 | a reachable node is ready if and only if some exam is persisted, none is unready and exactly the persisted ones are served; then each is served with its stored items, column by column |
| `ContentProtocol.AnyTurn` | app/service/content_service.go:106-184 | one step of any thread keeps cache agreement and what the thread relies on, and disturbs nothing outside its own critical section |
| `ContentProtocol.SectionTouchesOnlyItsExam` | app/service/content_service.go:56-61 | a thread inside one exam's critical section never changes what another exam's students get |
| `ContentProtocol.RollbackFailsClosed` | app/service/content_service.go:86-101 | a cancelled load refuses an exam that was served and forgets one that never was; a superseded one changes nothing |
| `ContentSurvival.StepServesIff` | app/service/content_service.go:56-236 | a step leaves an exam served if and only if it publishes it, or finds it served and is not one of five: a load of it begins, its load is rolled back, its rebuild fails, a reload marks, or a reload that did not list it cleans up |
| `ContentSurvival.ServedIff` | app/service/content_service.go:170-236 | after any run of racing loads and reloads an exam is served if and only if some publication of it, or the start, is followed by none of those five steps |
| `ContentSurvival.PublicationLastsIff` | app/service/content_service.go:170-236 | a publication is served without a break to the end of a run if and only if none of those five steps follows it |
| `ContentSurvival.ReloadForgetsLoaded` | app/service/content_service.go:190-236 | a concrete run in which an exam is loaded and served, all threads end, and a reload that had listed before has forgotten it: it is stored, not served, and the node is not ready |
| `ContentTokens.PublicationsInOrder` | app/service/content_service.go:66-73 | per exam the tokens that publish are strictly increasing over every run and never ahead of the generation |
| `ContentTokens.AnyTokens` | app/service/content_service.go:171-183 | one step issues only newer tokens to its own thread, and publishes only under the present generation, giving the token up |
| `ContentService.Service.BeginRebuild` | app/service/content_service.go:66-73 | the exam becomes unready under its next generation, which is returned |
| `ContentService.Service.CancelRebuild` | app/service/content_service.go:86-101 | does what the protocol's cancel step does, and says whether the token was current |
| `ContentService.Service.RebuildExam` | app/service/content_service.go:106-184 | a superseded token changes nothing; a failed read marks the exam unready; otherwise what is published shows the stored items in order, every student-facing column as stored |
| `ContentService.Service.MarkReload` | app/service/content_service.go:197-214 | every cached and every listed exam becomes unready under a newer generation, and each listed one gets its token |
| `ContentService.Service.ReloadAllCaches` | app/service/content_service.go:190-238 | left alone, a reload succeeds if and only if every listed exam is readable, and then serves exactly the persisted exams; failing or not, nothing stale is served |
| `ContentService.Service.RehydrateAllCaches` | app/service/rehydrate.go:14-25 | startup serves exactly the persisted exams, or fails at an unreadable one |
| `ContentService.Service.GetExamContent` | app/service/content_service.go:283-294 | content of exactly the requested exam, or one of two refusals |
| `ContentService.Service.SameSet` | app/adapter/delivery/router/readiness.go:70-84 | decides set equality whatever the order and duplicates |
| `ContentService.Service.Readyz` | app/adapter/delivery/router/readiness.go:28-64 | 200 exactly when the database answers, exams are persisted, none is unready and the cache holds exactly them |
| `ContentHash.ViewIgnoresOrder` | app/service/bundle_service.go:248-338 | the hash view is invariant under any permutation of item and participant rows with unique identifiers |
| `ContentHash.SameViewIff` | app/service/bundle_service.go:248-338 | two bundles have the same hash view if and only if the hashed settings, item rows and hashed roster columns agree, in whatever order they come |
| `ContentHash.RosterRowIff` | app/service/bundle_service.go:306-329 | participants are hashed alike if and only if identifier, exam, student and code agree; names and counters are not hashed |
| `ContentHash.ContentHashView` | app/service/bundle_service.go:248-329 | the sort and the two filling loops build that view |
| `ContentHash.AnyListing` | app/adapter/persistence/repository/node_repository.go:388-444 | any listing of an exam's stored rows has the stored hash view |
| `BundleModel.ItemsReplaced` | app/adapter/persistence/repository/node_repository.go:597-611 | an insertion that succeeds adds exactly the incoming items under free keys and keeps all others |
| `BundleModel.RosterReplaced` | app/adapter/persistence/repository/node_repository.go:613-651 | on success the roster is the other exams' rows untouched and exactly the incoming participants; retained ones keep their counters; of a participant listed more than once, which only a retained one can be, the last row decides |
| `BundleModel.BundleReplaced` | app/adapter/persistence/repository/node_repository.go:590-657 | on success the exam has exactly the incoming items and roster, a retained participant keeping every column but student, name and code, and no other exam's row, and no other table, changes |
| `BundleModel.FirstLoadIff` | app/adapter/persistence/repository/node_repository.go:590-657 | a bundle of an exam without a roster is stored if and only if its item identifiers are distinct and no other exam's, and its participants' identifiers, codes and students are distinct and unused |
| `BundleModel.ReplaceKeepsKeys` | app/adapter/persistence/repository/node_repository.go:613-651 | access codes stay unique, students unique per exam |
| `BundleReload.ReplaceReloads` | app/adapter/persistence/repository/node_repository.go:586-589 | loading the bundle just loaded again fails if and only if a row takes the code or student another participant holds when it is written, and otherwise changes nothing |
| `BundleReload.DistinctNeverCollides` | app/adapter/persistence/repository/node_repository.go:586-589 | a bundle that loads and lists no participant twice never collides, so for it loading is idempotent |
| `BundleReload.LoadsOnce` | app/adapter/persistence/repository/node_repository.go:627-640 | a concrete roster that lists a retained participant twice, loads, and cannot be loaded again |
| `BundleHash.LoadedHashIff` | app/service/bundle_service.go:129 | after every successful load the hash taken of the bundle is the hash of the stored rows if and only if the bundle lists no participant twice |
| `BundleHash.RepeatedHashDiffers` | app/service/bundle_service.go:129 | a concrete bundle that lists a retained participant twice: it loads, and its hash is not that of the stored rows |
| `BundleService.LoadedRosterIff` | app/service/bundle_service.go:99-144 | after a load of a deployment without receipts the exam's roster is in order at revision zero if and only if the bundle lists no participant twice |
| `BundleService.PreflightNeedsDistinct` | app/service/bundle_service.go:212-216 | no preflight, whatever it expects, passes after a load that lists a participant twice |
| `BundleService.LoadedExamIff` | app/service/bundle_service.go:85-124 | a load establishes what the sittings rely on, maximum score and manual flag being those of the stored items, if and only if the bundle's duration is not negative |
| `BundleService.MaxScoreIsPoints` | app/service/bundle_service.go:87-94 | the summed maximum score is the points of the stored items |
| `BundleService.ItemsStoredAs` | app/service/bundle_service.go:94-124 | after a load each item of the bundle is stored with its own prompt, options, key, rubric, points and flags, and its section's title and place; the exam has no other item, and other exams' items stand |
| `BundleService.ParticipantsStoredAs` | app/service/bundle_service.go:125-128 | after a load each participant is stored as its last entry in the bundle says, a retained one with its counters, a new one with none; the exam has no other, and other exams' participants stand |
| `BundleService.ExamStoredAs` | app/service/bundle_service.go:85-124 | the stored exam has the bundle's settings, checksum and first code's six-letter prefix, revision zero and no fence; no other exam changes |
| `BundleService.RefusedIff` | app/service/bundle_service.go:66-84 | a bundle is refused before anything is touched if and only if its exam has roster revisions under the same deployment, or an item is a file upload, or the checksum is not that of its body, with the first of these as the error |
| `BundleService.Service.LoadBundle` | app/service/bundle_service.go:66-151 | a refused bundle changes nothing; a rolled-back one leaves the tables and cancels its mark; a committed one is published with its stored items, or stays unready |
| `RosterInvariant.RosterKeptIff` | app/service/roster_service.go:34-138 | an event keeps an exam's roster in order (receipts exactly 1..R, hash of the stored rows) if and only if it is not a misaddressed one claiming a revision still to come |
| `RosterExample.OwnLeavesNoReceipt` | app/service/roster_service.go:61-64 | two exams and a stray event: the roster is out of order after it, the owner's own event of that revision is admitted without a receipt, and its repetition is refused as a gap |
| `RosterInvariant.RostersStayOk` | app/service/roster_service.go:34-164 | over any run of events that claim no other exam's deployment, valid or not, repeated or out of order, every exam's roster stays in order and no row disappears |
| `RosterInvariant.TablesKept` | app/service/roster_service.go:91-106 | unique codes, students, receipts and revisions survive every event, and every applied receipt's student is on the roster as its event named it |
| `RosterInvariant.RosterOnlyGrows` | app/service/roster_service.go:91-106 | an event changes no roster row and adds at most its own, only as the exam's next event |
| `RosterInvariant.BaselineKept` | app/service/bundle_service.go:184-206 | no event changes the set of participants the bundle brought |
| `RosterInvariant.NextTakesEffect` | app/service/roster_service.go:65-128 | the exam's own next event always advances the revision by one and leaves exactly one new receipt, the one that answers repetitions |
| `RosterInvariant.ExactCount` | app/adapter/persistence/repository/node_repository.go:121-131 | the processed receipts up to a revision are exactly as many as that revision |
| `RosterInvariant.PreflightIffExpected` | app/service/bundle_service.go:164-217 | while the roster is in order a preflight passes if and only if the expected counts and revision are right and a bundle is loaded |
| `RosterInvariant.PreflightAfterApply` | app/service/bundle_service.go:164-217 | a preflight that passed passes after any well-addressed event, with the new total and revision |
| `RosterService.Service.Apply` | app/service/roster_service.go:34-138 | tables and reply of one event's transaction; the exam's own next event is answered from its fields and the tables as `RosterOutcomes.NextAppliedIff` says |
| `RosterService.Service.ApplyNext` | app/service/roster_service.go:68-128 | the exam's next event is applied if it is in time and fits the roster, and otherwise rejected with the first failing condition's code; either way the revision advances |
| `RosterOutcomes.NextAppliedIff` | app/service/roster_service.go:68-128 | the exam's own next event is applied if and only if it is applied elsewhere, or pending while the exam is unfenced and now is before deadline and exam end, and its student is stored field by field or student, identifier and code are all new; otherwise it is rejected with the first failing condition's code; roster, receipt, revision and hash follow |
| `RosterOutcomes.OtherReply` | app/service/roster_service.go:34-67 | any other event is refused as malformed, unknown, in conflict with its receipt or a gap, answered from its receipt, or, if misaddressed, rejected without moving the exam |
| `RosterService.Service.FinishApplied` | app/service/roster_service.go:107-128 | the recomputed hash of the stored rows, the revision and the applied receipt go in together |
| `RosterSittings.RosterEventKeepsSittings` | app/service/roster_service.go:34-138 | every roster event keeps everything the sitting transactions rely on |
| `SittingRoster.StepKeepsRosters` | app/service/attempt_service.go:66-280 | every step of the sittings, resets and harvest included, keeps every exam's roster in order, its stored hash included: attempt counters are not hashed |
| `SittingRoster.RunKeepsRosters` | app/service/bundle_service.go:184-217 | so does every run of them |
| `RosterLog.LoggedEvent` | app/service/roster_service.go:51-67 | of Central's log, an event up to the revision replays, the next takes effect, a later one is a gap |
| `RosterLog.CatchUpReaches` | app/service/roster_worker.go:124-165 | applying the log from the exam's revision on reaches any later revision, in order |
| `RosterLog.CaughtUp` | app/service/roster_service.go:119-128 | caught up, every event of the log has exactly its own receipt and every applied one's student is on the roster |
| `RosterLog.AnyLoggedEvent` | app/service/roster_service.go:34-138 | any event of any deployment's log keeps every exam's place in its own log |
| `RosterWorker.SortedPage` | app/service/roster_worker.go:133-138 | a page served in any order is restored to log order by the sort |
| `RosterWorker.Worker.Process` | app/service/roster_worker.go:91-119 | an event of a log replays, takes effect or is a gap; if its acknowledgement is confirmed, Central knows what its receipt records |
| `RosterWorker.Worker.ReplayEvent` | app/service/roster_worker.go:140-155 | one replayed event, unless already processed, extends the catching up by at most one |
| `RosterWorker.Worker.ApplyPage` | app/service/roster_worker.go:139-160 | a page leaves the tables of the log applied once up to the new revision, and every event of the page processed |
| `RosterWorker.Worker.ReplayDeployment` | app/service/roster_worker.go:124-165 | from any cursor not beyond the revision the paging loop terminates; without error the exam is at the end of the log, each event having taken effect exactly once, and every event from the cursor on is processed |
| `RosterWorker.StopsEarlyIff` | app/service/roster_worker.go:160-162 | taking a page of fewer than fifty events for the last one can stop short of the end of a log if and only if full pages hold fewer than fifty |
| `RosterWorker.Worker.ProcessPulled` | app/service/roster_worker.go:88-120 | one pulled event is processed, a gap being closed by a full replay first |
| `RosterWorker.Worker.ProcessDeployment` | app/service/roster_worker.go:86-122 | without error every pulled event of the deployment is processed, whatever duplicates were pulled, and so is every event that took effect meanwhile; revisions never fall |
| `RosterWorker.Worker.GroupEvents` | app/service/roster_worker.go:48-51 | each pulled event is in the group of its own deployment and in no other |
| `RosterWorker.Worker.ProcessGroups` | app/service/roster_worker.go:52-69 | without error every grouped event is processed, and so is, in every log, every event that took effect meanwhile |
| `RosterWorker.Worker.RecoverExams` | app/service/roster_worker.go:70-82 | without error every loaded, unfenced exam is at the end of its log, every event since its revision at the start processed |
| `RosterWorker.Worker.PollOnce` | app/service/roster_worker.go:35-84 | keeps every exam in step with its log whatever fails; without error every unfenced exam is at the end of its log, and Central has in this poll confirmed every event pulled, the first fifty, and every event of those logs since the revision at the start, unless it had withdrawn the event |
| `Grading.FullCreditIff` | app/domain/grading/grading.go:12-66 | the grades the code may give a nonempty answer to an objective item are exactly the points, if it may deserve them, and zero, if it may miss them, told from the JSON values: same multiset or same order of the trimmed, lowered texts of a list, of typed strings or of one scalar, under "answers" or else "order"; same or accepted text; for matching, whether the pairs can agree or differ in some order of the map walks |
| `Grading.FoldsIff` | app/domain/grading/grading.go:68-70 | normalising gives exactly the text without its surrounding blanks and in small letters |
| `Grading.ChoicesIff` | app/domain/grading/grading.go:72-88 | the choices of a list are its elements' printed, folded texts one by one, of typed strings the strings, of null none, of any other value that one value's text |
| `Grading.ListsEarnIff` | app/domain/grading/grading.go:35-52 | for two lists of choices multiple choice earns the points if and only if the multisets of their texts agree, and ordering if and only if they agree position by position |
| `Grading.OtherCountNeverEarns` | app/domain/grading/grading.go:35-52 | an answer with another number of choices than the key is always graded zero |
| `Grading.DistinctPairsSettle` | app/domain/grading/grading.go:109-122 | pairs that relate no text to two are graded one way only, by whether they are the same pairs |
| `Grading.RenamedAlikeIff` | app/domain/grading/grading.go:109-122 | two maps can be renamed alike if and only if they have the same names and under each a value in common |
| `Grading.RenamedApartIff` | app/domain/grading/grading.go:109-122 | they can be renamed differently if and only if a name is in one only or has two different values |
| `Grading.GradeRange` | app/domain/grading/grading.go:12-66 | a score is zero or the item's points, and an answer is graded automatically exactly for the objective types |
| `Grading.NormalizeIdempotent` | app/domain/grading/grading.go:68-70 | normalising twice is normalising once |
| `Grading.CompareOrderedOrSet` | app/domain/grading/grading.go:90-107 | the sorting and comparing loops decide same order or same multiset |
| `Grading.CollectStringSlice` | app/domain/grading/grading.go:72-88 | the loop collects exactly the choices of the value |
| `Grading.CollectNormalizedMap` | app/domain/grading/grading.go:109-122 | the loop over the pairs, in any order, builds a map with every key renamed and one of its values |
| `Grading.GradeObjectiveAnswer` | app/domain/grading/grading.go:12-66 | score and flag are a grade the code may give; an automatic grade above zero is given only to an answer that may deserve the points, one below the points only to an answer that may miss them |
| `Answers.ConvergesToNewest` | app/adapter/persistence/repository/node_repository.go:223-254 | for any arrival order the stored content and sequence are those of the write with the largest sequence |
| `Answers.ArrivalOrderIrrelevant` | app/adapter/persistence/repository/node_repository.go:223-254 | two arrival orders of the same writes store the same content |
| `Answers.StaleIffOvertaken` | app/adapter/persistence/repository/node_repository.go:223-254 | a write is stale if and only if an equal or larger sequence of its item arrived before |
| `Answers.UpsertEffect` | app/adapter/persistence/repository/node_repository.go:223-254 | an upsert replaces the row of its own item at most, keeps the others and one row per item |
| `Answers.UpsertChangesIffFresh` | app/adapter/persistence/repository/node_repository.go:223-254 | an upsert changes the rows if and only if it is not stale |
| `Answers.ComputeFinalizeStatus` | app/service/attempt_service.go:282-298 | the accumulating loop computes total and grading status |
| `Answers.TotalSums` | app/service/attempt_service.go:282-298 | the total adds up over any split of the answers, and of one answer is its score or nothing |
| `Answers.FinalizeOrderIrrelevant` | app/service/attempt_service.go:282-298 | total and status do not depend on the order answers are listed in |
| `Answers.ScoreBound` | app/service/attempt_service.go:282-298 | one answer per item, each scoring nothing, zero or its item's points, totals between 0 and the points of the items |
| `RateLimiter.Limiter.FilterInPlace` | app/service/auth_service.go:44-53 | the in-place filter keeps exactly the unexpired hits, in order |
| `RateLimiter.Limiter.OldestKey` | app/service/auth_service.go:56-68 | the victim is a key without hits, or one whose first hit is oldest of all |
| `RateLimiter.Limiter.Allow` | app/service/auth_service.go:36-79 | admits if and only if fewer than limit hits of the key are inside the window (a limit of zero or less admits everything), never holds more than 4096 keys, and leaves every other key as it was, but for one with the oldest first hit, forgotten exactly when a new key finds 4096 |
| `RateLimiter.AdmitKeepsSpaced` | app/service/auth_service.go:72-78 | admitting under the limit keeps any two admissions limit apart a window apart |
| `RateLimiter.FreshRemains` | app/service/auth_service.go:46-53 | filtering an ordered remainder of the admissions leaves the remainder for the later cut |
| `RateLimiter.AdmissionsSpaced` | app/service/auth_service.go:36-79 | over all calls with a clock that never runs back, two admissions of a key limit apart, without an eviction between, are at least a window apart |
| `IntegrityService.EventsStaySpread` | app/service/integrity_service.go:34-74 | over any run of recordings, the 1st and 11th of eleven consecutive stored events are more than 60s apart, and two of one type more than 5s |
| `IntegrityService.StoreKeepsSpread` | app/service/integrity_service.go:44-67 | an event stored past both window checks keeps the spacing |
| `IntegrityService.RecordEvent` | app/service/integrity_service.go:34-74 | tables and reply of the recording transaction |
| `IntegrityService.RecordedIff` | app/service/integrity_service.go:44-74 | an event of the caller's own attempt is refused if and only if ten are stored in the last minute, answered with a stored one of its type if and only if one is not older than five seconds, and otherwise stored as it came |
| `Sorting.SortCanonical` | app/service/bundle_service.go:333-338 | sorting by an order in which no two rows tie makes two lists equal if and only if they hold the same rows |

## Left out

- Digests: a hash is the value it covers (content view, reset command, event identity), and a bundle's checksum is what
  an injective digest of its body gives. JSON, gzip, ETags and SHA-256 are not modelled.
- Time and points are integers: seconds and hundredths. Rounding of DATETIME and DECIMAL columns is not modelled.
- Text: strings are sequences of characters; case folding covers ASCII and trimming the one-byte space characters, and
  the device identifier's limit of 128 counts characters, not bytes.
- I/O: HTTP, DTOs, middleware, SQL isolation levels, database outages in the middle of a transaction, logs,
  `harvest_log`, tickers, backoff and contexts. A failed content read and an unreachable Central are modelled.
- The bundle is fixed while students sit: an exam is not loaded again under the same participants' open sittings, and
  no other process writes exams or items (`docs/operations/bundle-load-invariant.md:12-16`).
- Redeploying an exam, permanence of fences, fence acknowledgement and legacy items without an exam identifier: the code
  keeps no invariant there, so `BundleOk` and `Owned` exclude them.
- Migrations, the reset worker's report loop, `GetResult`, login beyond its limiter, handlers: they add only easy members.
- Description and metadata of an integrity event are not modelled.
- The unique key (participant, attempt number) is not a separate check: `OneSittingAtATime` proves the numbers unique.
- Cached exam metadata, which goes stale after roster changes: agreement is about the items. Causes of unreadiness are
  not kept. Item listings may come in any order of equal sort keys.
- AttemptService.Service.AutosaveAnswer: says what an uninterrupted call does; the machine splits it in two steps. It takes
  one stored row per item and items stored under their own identifiers, which the machine's invariant and the keys give.
- AttemptService.Service.StartAttempt: requires the tables in order, because otherwise the lookup of an active attempt
  could pick any of several; the same holds of `AttemptService.StartLocked`, `AttemptService.CloseAndCreate` and
  `AttemptResetService.Service.PreviewReset`.
- SweeperService.Service.SweepExpiredAttempts: no other transaction runs between two turns of its loop; the machine
  interleaves them (`SeeExpired`, `Expire`), and the skipped lock race occurs only there.
- HarvestService.Service.BuildPayload: leaves out the payload's integrity events.
- HarvestService.Service.BuildBatch: leaves out the payloads' integrity events.
- HarvestService.Service.SendBatch: leaves out integrity events and `harvest_log` rows.
- HarvestService.Service.DrainDeployment: leaves out integrity events and `harvest_log` rows. Other transactions, as
  steps of the machine, run before each payload and before the reply is looked at; the mark carries the clock then.
- HarvestService.Service.Drain: no other transaction runs inside its sweep or between that and the listing.
- NodeRepository.Repository.UpsertAnswer: follows the port's contract, one guarded replace in which every guard reads
  the old sequence; the adapter's unordered assignment map is not modelled.
- RateLimiter.Limiter.Allow: filters a copy of the stored slice; that the old slice shares its memory is not captured.
  Mutex and real clock are replaced by a clock that never runs back.
- RosterWorker.Worker.PollOnce: Central's log is finite, well-formed, contiguous from revision 1 and has one status per
  event; each deployment belongs to one exam. Cursor and page order are not restricted, but a full page holds at least
  the fifty events asked for (`app/adapter/central/roster_client.go:60`), which `RosterWorker.StopsEarlyIff` shows to be
  exactly what reaching the end of a log needs.
- IntegrityService.EventsStaySpread: assumes a clock that never runs back between recordings.
- SittingMachine.StepKeeps: lets a submission happen at any time, which covers the code's check against the due time, and
  starts from loaded bundles whose durations and points are not negative (`BundleOk`), which a
  load does not check; `BundleService.LoadedExamIff` is exact about the duration.
- RosterInvariant.RosterKeptIff: is stated for an exam that alone owns its deployment, as the schema's use assumes.
- ContentService.Service.ReloadAllCaches: is the uninterrupted reload; interleavings are in `ContentProtocol`.
