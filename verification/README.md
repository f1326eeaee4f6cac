# jobdb: a verified model

A Dafny 4.11 model of the durable job engine `jobdb`. It states, and proves for every input and every
run, what the engine's design relies on: that crashes of a worker cannot be seen in a job's log or
result, that logs read back, that back-offs are kept, that leases exclude each other, that linked
chapter logs read as copies. `dafny verify dfyconfig.toml` checks all of it.

A job is a deterministic program whose `DoTask` calls are answered from an append-only chapter log.
The model follows four parts of the engine and the places where they meet.

**Durable replay.** `Retry`, `Runner` (with `Chapters`) and the class in `WorkerRunner` give one
visit of a worker to a job. A job worker is a function from its input and the results of its earlier
calls to its next action, so any deterministic worker is covered, also one that never ends. What a
visit cannot know is in an environment (task results, back-offs still running), and a budget says
after how many chapters it dies. `Resume`, `Crash`, `Replay`, `Backoff` and `History` compare such
visits: crashes are invisible, logs read back, no retry comes before it is due, logs have a grammar
that names the program's own calls. `Clocks` gives the same visits a clock, creation times and
back-off lengths; `ClockRuns` shows that they are visits of the first kind, `TimedHistory` that they
follow the history of their log, and `Timeline` how far apart their chapters are and that what they
leave reads back at any time. `JobRun` and `JobRunInverse` treat `GetJobRun`, the reader that regroups a
log, as the inverse of the writer. `Verdicts` says when a failure is tried again, and what a call and
a job leave in the log, without the functions that decide it.

**Job table and leases.** `JobTable` has the row, its transactions as functions of one clock reading,
and the class whose methods perform them. `LeaseRuns` runs them in any order, with chapter writes as
separate steps, and ties any sequence of calls on the object to such a run. `LeaseTokens` adds signed
tokens and renewals in three steps, on top of the same table. `HandOff` interleaves visits with
external task completions and follows their data into later visits.

**Forked chapter logs.** `Stories` is the linked store over its two tables and `PlainStories` the
same stories as copied sequences; `ChapterStore` is the object, with its walk and its pager.
`Restart` and `RestartStory` put a restart through both the store and the replay.

**Readers and drivers.** `Submit` (idempotent submit with crash points), `Schedule` (generations and
preflight), `Pages` (cursor paging and the waiting-task search), `Cron`, `CronText`, `CronSearch` and
`CronExpression` (field syntax, fire times, whole expressions), `WorkerLoop` (the bounded main loop).
`Common` holds what several of them share.

Assumptions, as far as they are not written into a lemma: hashes are injective and tokens cannot be
forged; the clock never goes back and lease ids are fresh; each SQL transaction is one step; a
failure is one of the three recorded kinds and is judged live as it will be read back, which
`Retry.RetryDecisionSurvivesRecording` delimits; job and story keys are non-empty.

Where the code and its documents or expectations part, the model follows the code and a lemma says so:

- a cached terminal failure is returned without completing the lease, although
  `docs/SPEC-Lease-Completion-Final-Chapter.md` promises that completion can be repeated
  (`Replay.FinishedLogReadsBack`);
- a NonRetryable marker does not survive recording (`Retry.MarkerIsLost`), and any list of
  non-retryable types decides some failure differently after a crash
  (`Retry.PoliciesThatSurviveRecording`, `Retry.PlainErrorIsFinalAfterRecording`);
- repeating a submit, with nothing else happening to the job, fails if the first call died before its
  first chapter, if a timeout is zero, or if the row cannot give back its time of availability, and
  only then (`Submit.RepeatedSubmitConverges`, `Submit.HalfCreatedStoryIsRefusedForever`,
  `Submit.AgreesWithItself`, `Submit.EpochIsRefused`); it also fails once that time has moved
  (`Submit.RepeatAfterMove`); a JSON null as metadata hides a later difference
  (`Submit.DifferentRequestIsRefused`);
- the two lease paths differ if an awaited id is created late (`LeaseRuns.PathsPartWhenAwaitedIdAppears`);
- a refused scheduled occurrence is handed over after all once its cancellation has died half-way
  (`Schedules.RefusedIsHandedOverAfterADeath`, `Schedules.HalfCancelledOccurrenceIsHandedOver`);
- a cron step near the 64-bit limit marks wrong values (`CronFields.FieldIsExactUnlessItWraps`);
- a restart is refused as cutting into a retry chain although it does not, exactly if the next chapter
  is a later job attempt's outcome (`Restart.RefusalIsExactButForLaterOutcomes`,
  `Restart.WholeCutIsRefused`).

## Model

| member | source | states |
|---|---|---|
| Retry.RetryDecisionSurvivesRecording | pkg/workflow/worker_retry.go:97-119 | for one failure: it is retried after a crash as it was live exactly when the dropped NonRetryable marker and custom type names had no say |
| Retry.PoliciesThatSurviveRecording | pkg/workflow/worker_retry.go:97-119 | the retry policies under which every unmarked failure, plain errors included, is retried after a crash as it was live: exactly those that list no type |
| Retry.PlainErrorIsFinalAfterRecording | pkg/workflow/worker_envelope.go:163-166 | a plain error is recorded as an application error: where those are listed it is retried live and final after a crash |
| Retry.TypedFailuresSurviveRecording | pkg/workflow/worker_retry.go:97-119 | among failures of the kind they are recorded as, every decision survives exactly under policies that list no type, or both kinds that a list can stop |
| Retry.MarkerIsLost | pkg/workflow/worker_retry.go:97-119 | a marked application failure is final while the worker lives and retried once it has been read back |
| Retry.OverridesTakePrecedence | pkg/workflow/worker_retry.go:17-47 | an override that sets nothing leaves the normalized base, one that sets everything hides the base |
| Retry.EffectivePolicyIsStable | pkg/workflow/worker_retry.go:17-78 | merging the start chapter's policy into an already effective policy gives that policy again |
| Chapters.HashIsInjective | pkg/jobdb/runtime/sqlite/codec.go:294-323 | input hashes are equal exactly for equal inputs (a stated idealisation of SHA-256) |
| Runner.TaskLoop | pkg/workflow/worker_runner.go:784-1124 | the log only grows, a replay writes nothing and runs nothing, every returned call moves past an ordinal (or, for a replay miss, uses up the replay's patience), and the loop descends on log left, then attempts left |
| Runner.WorkerLoop | pkg/workflow/worker_runner.go:767-1124 | a whole pass of the job worker keeps the same growth and budget law, for every deterministic worker |
| Runner.JobLoop | pkg/workflow/worker_runner.go:1148-1352 | the job-attempt loop keeps the same law and descends on log left, then attempts left |
| Verdicts.JudgeExactly | pkg/workflow/worker_runner.go:1103-1124 | a failure is tried again exactly if attempts are left and it is a timeout that says so, or an application or system error that the policy does not list by name; every other outcome goes to the job worker |
| Verdicts.ReadExactly | pkg/workflow/worker_runner.go:802-868 | the same for a recorded chapter of any kind: its four errors, its answer, or the number of the next attempt |
| Verdicts.CallWritesItsAttempts | pkg/workflow/worker_runner.go:784-1124 | a local call that nothing holds up writes one chapter per attempt until one settles it, no more, and answers with that attempt's outcome |
| Verdicts.FailingCallUsesAllAttempts | pkg/workflow/worker_runner.go:1103-1124 | if every attempt fails so that it may be tried again, a call makes exactly as many attempts as its policy allows |
| Verdicts.FailingJobUsesAllAttempts | pkg/workflow/worker_runner.go:1301-1352 | a job whose worker fails so every time records exactly the attempts its policy allows, numbered in order, and completes the lease with the last |
| Verdicts.MergedFieldByField | pkg/workflow/worker_retry.go:17-78 | each setting of a merged policy is the override's if made there, else the base's, else its default |
| WorkerRunner.Worker.MarkStoryOrdinalConsumed | pkg/workflow/worker_runner.go:110-114 | the story counter never moves back and leaves every consumed ordinal behind |
| WorkerRunner.Worker.PutChapter | pkg/jobdb/runtime/sqlite/runtime.go:1194-1221 | a chapter is added only at the next free ordinal; otherwise nothing changes |
| WorkerRunner.Worker.DoTask | pkg/workflow/worker_runner.go:767-1124 | the mutable loop leaves the reply, log, counter and list of executed ordinals that the replay function gives |
| WorkerRunner.Worker.AnswerFromLog | pkg/workflow/worker_runner.go:802-868 | one turn on a recorded outcome: type, hash, retry decision and back-off as the replay function has them |
| WorkerRunner.Worker.RunAndRecord | pkg/workflow/worker_runner.go:922-1123 | one turn past the log: the task worker runs, its outcome is appended, and it is returned or retried at the next ordinal |
| WorkerRunner.Worker.RunJobWorker | pkg/workflow/worker_runner.go:478-493 | the job worker's own code, driven call by call, ends where the worker function ends |
| WorkerRunner.Worker.JobAnswerFromLog | pkg/workflow/worker_runner.go:691-736 | a cached job result is completed, returned early, retried or refused as the replay function has it |
| WorkerRunner.Worker.RecordJobOutcome | pkg/workflow/worker_runner.go:1301-1352 | the job outcome is appended and the attempt ends, parks or goes on to the next attempt |
| WorkerRunner.Worker.JobAttempts | pkg/workflow/worker_runner.go:1148-1352 | the loop over job attempts reaches exactly the visit of the replay function |
| WorkerRunner.Worker.DoJob | pkg/workflow/worker_runner.go:1127-1353 | a whole visit ends with the stop reason, log and executed ordinals of the visit function |
| Resume.PolicySurvivesSuspension | pkg/workflow/worker_runner.go:419-436 | a worker that starts from the policy a suspended visit stored arrives at the same policy; a start chapter that sets everything decides it alone |
| Resume.OnlyTheJobPolicyMatters | pkg/workflow/worker_runner.go:419-436 | visits that start from different base policies but arrive at one job policy are the same visits, so crash simulation also covers the visits before and after a suspension |
| Resume.ReaderAgreesWithWriter | pkg/workflow/worker_runner.go:802-868 | a reader of a task outcome takes the decision its writer took |
| Resume.TaskResumes | pkg/workflow/worker_runner.go:784-1124 | one DoTask call re-run on a prefix of an earlier visit's log keeps in step with a call that was never interrupted |
| Resume.WorkerResumes | pkg/workflow/worker_runner.go:767-1124 | the same for a whole pass of the job worker |
| Resume.JobResumes | pkg/workflow/worker_runner.go:1148-1352 | the same across job attempts |
| Crash.VisitResumes | pkg/workflow/worker_runner.go:1127-1353 | a visit on any prefix of an earlier visit's log ends with the log and result of one uninterrupted visit, unless it only parks inside the prefix |
| Crash.VisitsFollowEachOther | pkg/workflow/worker_runner.go:1127-1353 | in a series of visits each starts on the log the one before it left, counted from the first or from the last |
| Crash.CrashSimulation | pkg/workflow/worker_runner.go:767-1353 | however many visits are cut short between chapter writes, one uninterrupted visit could have left the same log and result |
| Crash.NoWorkerRunsForARecordedOrdinal | pkg/workflow/worker_runner.go:802-880 | no task worker runs for an ordinal that has a chapter, none twice, and what is recorded is what it returned |
| Backoff.NoRetryBeforeItsBackoff | pkg/workflow/worker_runner.go:850-868 | after any crashes, every task retry and every first chapter of a retried job attempt that a visit writes was due when it wrote it, also when another visit recorded the failure |
| Clocks.BackoffGrows | pkg/workflow/worker_retry.go:80-95 | with a coefficient of at least one a later attempt never waits less |
| Clocks.FirstBackoff | pkg/workflow/worker_retry.go:80-95 | the first back-off is the initial interval, cut at a positive maximum, and never below zero |
| Clocks.BackoffMultiplies | pkg/workflow/worker_retry.go:80-95 | without a maximum, a whole coefficient k makes each back-off k times the one before |
| Clocks.MaximumCuts | pkg/workflow/worker_retry.go:88-91 | with a maximum, the back-off is the smaller of it and what there would be without |
| Clocks.BackoffIsTheWholePart | pkg/workflow/worker_retry.go:80-95 | for any coefficient, the back-off is the whole part of the initial interval multiplied once per attempt after the first |
| Clocks.RetryComesOnTime | pkg/workflow/worker_runner.go:1103-1118 | a visit that need not suspend itself writes the next attempt after the back-off and the time the clock ran on, and no later |
| Clocks.TimedTask | pkg/workflow/worker_runner.go:784-868 | with a clock, one DoTask call only adds chapters and stamps, never turns the clock back, dates no chapter later than the clock, notes held back-offs only at ordinals it has come to, and keeps the growth law of the untimed loop |
| Timelines.TimedVisitIsAVisit | pkg/workflow/worker_runner.go:235-296 | a visit with a clock ends with the stop, log and executed ordinals of a replay-function visit, which is told exactly which back-offs the clock found running |
| Timelines.BackoffsAreKept | pkg/workflow/worker_runner.go:1102-1117 | in every log that visits leave, crashes included, a retry chapter is created no sooner than computeBackoff after the failure before it: for a task retry by the policy of the very call that the log's history of the program's own calls names there, for a job attempt by the job's policy |
| Timelines.RestartsKeepDistances | pkg/jobdb/runtime/sqlite/runtime.go:108-250 | the same for a job restarted from any cut of such a log, and for restarts of restarts |
| TimedHistories.PoliciesAgree | pkg/workflow/worker_runner.go:776-780 | a log tells the policy behind each of its chapters in one way only, and a longer log tells those of its beginning |
| TimedHistories.JobFollows | pkg/workflow/worker_runner.go:784-1352 | a visit with a clock follows the history of its log call by call: it stamps what it writes with the policy of the call written, and holds at no failure that the log already answers |
| Timelines.HeldIsRunning | pkg/workflow/worker_runner.go:724-733 | on any log, a visit stops or misses only at a recorded failure that is retried, and only while its back-off, by the job's policy or that of a call the program makes with that input, is still running |
| Timelines.FinishedLogReadsBackInTime | pkg/workflow/worker_runner.go:691-736 | a finished log with any creation times reads back, live or in replay, as soon as the back-offs of its retried failures are over by the clock |
| Timelines.FinishedLogReadsBackAtOnce | pkg/workflow/worker_runner.go:691-736 | a log that visits with a clock have finished reads back at any later moment, with nothing assumed about back-offs |
| Timelines.CutLogMissesInTime | pkg/workflow/worker_engine.go:359-400 | the cache miss of a replay over a log cut short, once the back-offs of its retried failures are over |
| Timelines.CutLogMissesAtOnce | pkg/workflow/worker_engine.go:359-400 | the same for every cut of a log that visits with a clock have left, at any moment |
| Replay.ReplayArrivesAtThePolicy | pkg/workflow/worker_engine.go:389-400 | a live visit that starts from the job row's policy, a resumed one, and a replay runner built with no policy all arrive at the start chapter's normalized policy |
| Replay.WithoutStartPolicyReplayMayDiffer | pkg/workflow/worker_runner.go:419-436 | without a policy in the start chapter, replay and live visit arrive at one policy exactly when the live one is the normalized empty policy |
| Replay.FinishedLogReadsBack | pkg/workflow/worker_runner.go:691-736 | replay of a finished log returns its outcome, writes nothing and misses nothing; a live visit completes the lease exactly when that outcome is a success; whatever base policy the reader starts from, if it arrives at the job's policy |
| Replay.CutLogMisses | pkg/workflow/worker_engine.go:359-400 | replay of a log cut before any chapter stops with a cache miss at the cut and runs no worker, for workers that pass the miss on and readers that arrive at the job's policy |
| Replay.JobReadsBack | pkg/workflow/worker_runner.go:1205-1301 | any visit over a log holding a terminal result reads it back through every job attempt |
| History.ChainIsBounded | pkg/workflow/worker_runner.go:776-1124 | one call never records more attempts than its policy allows |
| History.TaskWritesChain | pkg/workflow/worker_runner.go:784-1124 | a local call appends attempts numbered from where it starts, same task and hash, all but the last failing retryably, and returns its last outcome |
| History.LogGrammar | pkg/workflow/worker_runner.go:776-1352 | every log, crashes included, is the start chapter followed by numbered job attempts that are runs of the program: each call's chain has the task, input hash and effective policy of the program's own next call, is no longer than that policy allows, and is answered with its last outcome; only the end may be unfinished |
| History.HistoryIsBounded | pkg/workflow/worker_runner.go:1148-1352 | job attempts are numbered without gaps up to at most the policy's maximum |
| JobRun.GetJobRun | pkg/jobdb/job_run_runtime.go:84-171 | the chapter loop with its attempt index and open task run computes the grouping function, errors included |
| JobRun.Reader.EnsureAttempt | pkg/jobdb/job_run_runtime.go:62-82 | an attempt is found by number or listed at the end, and the index finds every attempt |
| JobRun.Reader.TakeJobOutcome | pkg/jobdb/job_run_runtime.go:132-151 | a job outcome closes its attempt and opens the next number |
| JobRun.Reader.TakeTaskOutcome | pkg/jobdb/job_run_runtime.go:153-171 | a task outcome extends the open run or starts a new one |
| JobRunInverse.GroupingInvertsHistory | pkg/jobdb/job_run_runtime.go:62-171 | on every well-formed history the job attempts and DoTask calls come back one for one, and flattening the groups gives the log |
| JobRunInverse.GetJobRunInvertsWriter | pkg/jobdb/job_run_runtime.go:62-171 | for every log that visits with any crashes leave: one task run for each DoTask call the program made, holding exactly that call's chain; each chapter after the first exactly once, in order |
| PlainStories.RunRefines | pkg/jobdb/internal/chapterstore/sqlite/store.go:173-468 | over any history of creates, clones, appends, publishes and tombstones the linked rows stay a faithful picture of copied sequences |
| PlainStories.ResolveFinds | pkg/jobdb/internal/chapterstore/store.go:306-322 | the walk finds the owner exactly when it may look at more stories than it crosses links, and the owner holds the copied chapter |
| PlainStories.LinkedReadsAreCopiedReads | pkg/jobdb/internal/chapterstore/store.go:291-322 | reading any selector through the links is indexing a copied sequence, failing exactly for missing stories, ordinals out of range and owners 1024 or more links away |
| PlainStories.LaterOpsNeverDisturb | pkg/jobdb/internal/chapterstore/store.go:146-180 | nothing done later to a story, its source or its clones changes what an ordinal reads as; only the story's own tombstone ends the reading |
| PlainStories.ChainsAreAcyclic | pkg/jobdb/internal/chapterstore/sqlite/store.go:204-259 | no history links a story back to itself |
| ChapterStores.ChapterStore.CreateStory | pkg/jobdb/internal/chapterstore/store.go:73-93 | two transactions with every failure between them |
| ChapterStores.ChapterStore.SaveChapter | pkg/jobdb/internal/chapterstore/store.go:121-144 | a negative ordinal means the next one; a refused append changes nothing |
| ChapterStores.ChapterStore.CloneStory | pkg/jobdb/internal/chapterstore/store.go:146-180 | range checks, the link row, and the optional next chapter, each failure leaving exactly what was committed before it |
| ChapterStores.ChapterStore.ResolveLinkedOrdinal | pkg/jobdb/internal/chapterstore/store.go:306-322 | the loop of at most 1024 stories computes the recursive walk |
| ChapterStores.ChapterStore.Chapter | pkg/jobdb/internal/chapterstore/store.go:106-119 | reads what the read function reads, for negative selectors too |
| ChapterStores.ChapterStore.Page | pkg/jobdb/internal/chapterstore/store.go:391-439 | a page holds consecutive ordinals from its start and names the next start exactly while ordinals are left |
| ChapterStores.ChapterStore.AllChapters | pkg/jobdb/internal/chapterstore/store.go:391-439 | paging forward to the end gives every ordinal once, in order, or a real read failure |
| ChapterStores.ChapterStore.CompareRestartStoryPrefix | pkg/jobdb/runtime/sqlite/reconcile.go:88-137 | accepts exactly when every kept chapter reads the same in both stories and no extra output stands behind them |
| ChapterStores.CloneReadsAsPrefix | pkg/jobdb/internal/chapterstore/store.go:146-180 | in every reachable store a clone reads as its source up to the fork and has nothing behind it |
| ChapterStores.RepeatedRestartAgrees | pkg/jobdb/runtime/sqlite/reconcile.go:40-58 | a restart asked for again at any later time still finds the prefix equal, so only extra output behind the cut refuses it |
| Restart.AcceptedCutKeepsWholeChains | pkg/jobdb/runtime/sqlite/runtime.go:147-171 | an accepted LastStepToKeep keeps only whole retry chains of the program's own calls |
| Restart.RefusalIsExactButForLaterOutcomes | pkg/jobdb/runtime/sqlite/runtime.go:147-171 | on every log that visits leave a cut keeps whole chains if and only if the next chapter is no task retry; every other cut is refused; a whole cut is refused if and only if the next chapter is a later job attempt's outcome |
| Restart.WholeCutIsRefused | pkg/jobdb/runtime/sqlite/runtime.go:158-171 | such a refusal is reachable: a cut between the outcomes of two failed job attempts |
| Restart.RestartTakesUpTheCut | pkg/jobdb/runtime/sqlite/runtime.go:108-250 | the restarted worker gives every kept chapter again, runs no worker at or below the cut, and first writes the very step that was cut off |
| RestartStory.RestartComposition | pkg/jobdb/runtime/sqlite/runtime.go:108-250 | read through the links: the new story reads as the whole restarted log, but for kept chapters already as many links away as a reader may cross; the prior story reads as before; for every log that visits and earlier restarts left, and the restarted log is one of those again |
| Backoff.PrefixIsReachable | pkg/jobdb/runtime/sqlite/runtime.go:147-171 | what a cut leaves of a log that visits left is itself a log that visits can leave |
| JobTable.FallbackIsSpentByItsGrant | pkg/jobdb/runtime/sqlite/scheduler.go:280-287 | a fallback capability takes over once and is cleared by the grant it caused; otherwise it stays armed |
| JobTable.RescheduleHandsBack | pkg/jobdb/runtime/sqlite/lease.go:147-214 | after a reschedule a worker gets the job exactly when its time has come, its dependencies are done, and it offers the capability of the hour |
| JobTable.ResumeMakesReady | pkg/jobdb/runtime/sqlite/runtime.go:1167-1191 | a resumed job is leasable at once by exactly the workers offering its resume capability |
| JobTable.FreshIsLeasable | pkg/jobdb/runtime/sqlite/scheduler.go:97-132 | an inserted job is leasable exactly by workers offering its need, once its requested time has come and what it waits for is done |
| JobTable.GrantedLeaseHolds | pkg/jobdb/runtime/sqlite/runtime.go:419-458 | a granted lease holds for its id and worker alone, until the requested duration has passed, or 30 seconds |
| JobTable.RenewedLeaseHolds | pkg/jobdb/runtime/sqlite/lease.go:76-106 | a renewal only moves the end of the lease, to the duration after its start |
| JobTable.NoLeaseAfter | pkg/jobdb/runtime/sqlite/lease.go:108-214 | after a completion, reschedule, cancellation or resume no lease holds for anybody |
| JobTable.CompletionIsRecorded | pkg/jobdb/runtime/sqlite/lease.go:120-145 | no status means success, a failure status is kept as it is, and only a cancelled one makes the job a cancelled one |
| JobTable.CancellationIsRecorded | pkg/jobdb/runtime/sqlite/runtime.go:252-280 | a cancelled job counts as cancelled for good and keeps when and how it had been archived |
| JobTable.BeforeIsByteOrder | pkg/jobdb/runtime/sqlite/runtime.go:795-800 | the order of names is byte order: a beginning first, else by the first difference |
| JobTable.Runtime.InsertJobRecord | pkg/jobdb/runtime/sqlite/scheduler.go:97-132 | inserts a row exactly when the key is free |
| JobTable.Runtime.ResumeIfWaiting | pkg/jobdb/runtime/sqlite/runtime.go:1176-1191 | resumes exactly an unarchived job that still waits for the capability |
| JobTable.Runtime.DependenciesAreReady | pkg/jobdb/runtime/sqlite/scheduler.go:257-278 | the loop answers whether every awaited job that exists is archived |
| JobTable.Runtime.AcquireOneLease | pkg/jobdb/runtime/sqlite/runtime.go:356-464 | leases the first candidate that passes all tests, and none exactly when no job in the table passes |
| JobTable.Runtime.GetJobLease | pkg/jobdb/runtime/sqlite/runtime.go:466-545 | leases the named job exactly when its status and effective need allow it |
| JobTable.Runtime.KeepAliveLeaseByID | pkg/jobdb/runtime/sqlite/lease.go:76-106 | moves the expiry exactly for a lease that holds, to the time computed before the check |
| JobTable.Runtime.ArchiveByLease | pkg/jobdb/runtime/sqlite/lease.go:120-145 | archives exactly for a lease that holds, clearing lease and fallback |
| JobTable.Runtime.RescheduleJobWithLeaseByID | pkg/jobdb/runtime/sqlite/lease.go:147-214 | rewrites need, waits and fallback exactly for an allowed move under a lease that holds |
| JobTable.Runtime.CancelJob | pkg/jobdb/runtime/sqlite/runtime.go:252-280 | cancels any existing job, keeping an earlier archive time and status |
| LeaseRuns.HeldLeaseKeepsItsCapability | pkg/jobdb/runtime/sqlite/runtime.go:419-458 | in every reachable world a held lease was granted for this job and worker and its capability is still the row's next need |
| LeaseRuns.DeadLeasesStayDead | pkg/jobdb/runtime/sqlite/lease.go:261-275 | a granted lease that validateLeaseRow rejects is rejected for ever |
| LeaseRuns.SecondLeaseEndsTheFirst | pkg/jobdb/runtime/sqlite/lease.go:76-214 | once a second lease is granted no keep-alive, completion or reschedule under the first is ever accepted |
| LeaseRuns.ArchivalIsAbsorbing | pkg/jobdb/runtime/sqlite/lease.go:108-145 | an archived job keeps its archive time and status, never holds a lease, may only turn from completed to cancelled, and, if a lease completed it, its log holds that completion's own chapter at that chapter's ordinal for ever, crashes between the two writes included |
| LeaseRuns.CompletionGoesThrough | pkg/jobdb/runtime/sqlite/runtime.go:931-1000 | a completion's chapter is saved exactly under a running lease, where it stands already or comes next, and the job can then be archived with it for as long as the lease runs |
| LeaseRuns.PathsAgreeUnlessHidden | pkg/jobdb/runtime/sqlite/scheduler.go:220-250 | on any table the targeted and the polling path differ on a job exactly when its crashed lease hides an unmet dependency or a future time |
| LeaseRuns.LeasePathsAgree | pkg/jobdb/runtime/sqlite/runtime.go:487-531 | in every reachable world the two paths can lease the same jobs, if no job is created under an id already awaited |
| LeaseRuns.PathsPartWhenAwaitedIdAppears | pkg/jobdb/runtime/sqlite/scheduler.go:257-278 | without that assumption a run of three events makes the two paths differ |
| LeaseRuns.Session.Perform | pkg/jobdb/runtime/sqlite/lease.go:76-214 | any sequence of calls on the runtime object is a run: its table is always that of a reachable world, and a call succeeds exactly when the event is accepted |
| LeaseRuns.Session.Poll | pkg/jobdb/runtime/sqlite/runtime.go:356-464 | the same for a poll, which finds nothing exactly when no job's poll event would be accepted |
| LeaseTokens.TokenExpiryIsBracketed | pkg/jobdb/runtime/remote/lease_token.go:179-202 | for a live lease now <= token expiry < lease expiry; for an expired one the token is dead on arrival |
| LeaseTokens.DurationCovers | pkg/jobdb/runtime/remote/lease_token.go:66-77 | the duration in a token is what was left of the lease, rounded up to a whole second |
| LeaseTokens.MintedExpiry | pkg/jobdb/runtime/remote/lease_token.go:58-91 | a minted token ends at the computed expiry and survives parsing |
| LeaseTokens.MintedTokenValidates | pkg/jobdb/runtime/remote/lease_token.go:94-140 | a token validates for its own job and lease only, from its making, and never once its lease has run out |
| TokenRuns.GrantStartsAClient | pkg/jobdb/runtime/remote/lease_token.go:47-56 | either lease path starts a client whose first token is minted from the row's expiry |
| TokenRuns.ValidTokenMeansHeldLease | pkg/jobdb/runtime/remote/server.go:1102-1108 | in every run, whenever any token of a lease validates, the row still holds that lease unexpired, unless it was explicitly released |
| TokenRuns.RenewalNeverShortensTheLease | pkg/jobdb/runtime/remote/server.go:813-843 | a renewal with the newest token never moves the row's expiry earlier, even after lost answers |
| TokenRuns.RenewalNeverShortensTheToken | pkg/jobdb/runtime/remote/lease_token.go:58-91 | from one moment of a client's life to any later one, whatever answers were lost and whatever else happens to the job, its token never ends earlier than the token it had |
| TokenRuns.ReleasedOnlyByGivingUp | pkg/jobdb/runtime/remote/server.go:813-843 | a lease counts as released only after an act that cancels, resumes, completes or reschedules its job |
| CallTrace.ExternalOutcomeIsReturned | pkg/workflow/worker_runner.go:802-848 | once an external outcome stands where a visit stopped, every later visit of the same worker passes the hash check there and is answered once, with exactly that data |
| CallTrace.TraceIsWhatTheWorkerAsked | pkg/workflow/worker_runner.go:767-1124 | the calls of a pass are those the job worker asks for with the answers so far, and the call it stops for is the next |
| HandOff.VisitStoresSoundWaits | pkg/workflow/worker_runner.go:893-921 | a visit that stops for a task stores a wait that names the end of its log and the call's input hash, and a policy from which the next visit arrives at the same one |
| HandOff.OneSuccessPerOrdinal | pkg/jobdb/runtime/sqlite/runtime.go:1073-1192 | under any interleaving of visits, load, save and update at most one call succeeds per output ordinal |
| HandOff.SuccessIsWhatTheWorkerSees | pkg/jobdb/runtime/sqlite/runtime.go:1073-1192 | after a success every later visit, live or in replay, over whatever the log has become, is answered at that ordinal with that call's data, for an input with the hash the request named |
| HandOff.SuccessHandsTheJobBack | pkg/jobdb/runtime/sqlite/runtime.go:1152-1191 | in every run the update that makes a call succeed ends the wait and leaves the row asking for the job type of the start chapter, which is the resume need the request gave if it gave one |
| HandOff.AgreeingCallSucceeds | pkg/jobdb/runtime/sqlite/runtime.go:1073-1192 | in every run a request that agrees with a standing wait is loaded, saved and succeeds if nothing comes between, with its data in the log at the output ordinal |
| Submit.NormalizePrerequisites | pkg/jobdb/runtime/sqlite/codec.go:372-402 | the loop with its seen set computes the normalized list and the wait list, refusing exactly the lists the function refuses |
| Submit.NormalizedNamesEachOnce | pkg/jobdb/runtime/sqlite/codec.go:372-402 | the normalized list names every awaited job once, never the job itself, and leaves none out |
| Submit.NormalizedIsFirstMentions | pkg/jobdb/runtime/sqlite/codec.go:372-402 | a list is refused exactly if an entry names nothing, the job itself, or first mentions a job with an unknown condition; else it comes to its first mentions in their order, an empty condition meaning completion |
| Submit.FirstCallStores | pkg/jobdb/runtime/sqlite/runtime.go:33-102 | an accepted first call leaves a start chapter and a row that say what was asked for, field by field |
| Submit.AgreesWithItself | pkg/jobdb/runtime/sqlite/codec.go:517-547 | a stored request agrees with itself if and only if it set no timeout to zero |
| Submit.FirstOnesStay | pkg/jobdb/runtime/sqlite/reconcile.go:16-38 | the first start chapter and the first row are final whatever is submitted later |
| Submit.RepeatedSubmitConverges | pkg/jobdb/runtime/sqlite/runtime.go:33-102 | repeating a request, wherever the calls die, is accepted in the end if and only if none was sent before, or the first one got past its story, no timeout is zero, and the row can give its time of availability back or was never written; the job then holds the request's chapter and row, and otherwise is never changed |
| Submit.TimeRoundTrip | pkg/jobdb/runtime/sqlite/scheduler.go:179-191 | the instants a row gives back: the zero time, and every 64-bit instant but the Unix epoch |
| Submit.EpochIsRefused | pkg/jobdb/runtime/sqlite/scheduler.go:149-150 | a job that becomes available at the Unix epoch is refused as different from itself |
| Submit.RepeatAfterMove | pkg/jobdb/runtime/sqlite/scheduler.go:134-153 | once a lease has moved the time of availability, a repeat is accepted exactly if it names no time, or the very time the row now holds |
| Submit.DifferentRequestIsRefused | pkg/jobdb/runtime/sqlite/codec.go:517-547 | a request differing in type, input, metadata, policy or prerequisites is refused and changes nothing, exactly unless the first one's metadata was a JSON null and only metadata differs |
| Submit.HalfCreatedStoryIsRefusedForever | pkg/jobdb/runtime/sqlite/reconcile.go:60-75 | a crash between the story row and its first chapter makes the id unusable for good |
| Schedules.GenerationsRise | pkg/jobdb/runtime/sqlite/schedule.go:424-462 | over every run the generation counts the accepted changes, ARCHIVED is final, and a schedule no change was accepted for is what it was |
| Schedules.UnstartedIsHandedUnlessChanged | pkg/jobdb/runtime/sqlite/schedule_preflight.go:13-71 | over every run, an unstarted occurrence of the current generation is handed over later exactly when no change to its schedule was accepted since and it would have been handed over at once |
| Schedules.OldOccurrenceIsNeverHandedOver | pkg/jobdb/runtime/sqlite/schedule_preflight.go:13-71 | after any accepted change an older occurrence with only its start chapter is never handed to a worker |
| Schedules.NewestBitIsLast | pkg/jobdb/schedule.go:500-516 | a failure window takes the newest result at its end and lets go of the oldest only when it is full |
| Schedules.BegunIsHandedOver | pkg/jobdb/runtime/sqlite/schedule_preflight.go:24-26 | an occurrence that a worker has begun is handed over whatever its schedule has become, and a closed one no more |
| Schedules.RefusedStaysRefused | pkg/jobdb/runtime/sqlite/schedule_preflight.go:13-71 | over every run an occurrence refused before it began is refused again for as long as it has not begun, under the same verdict on the previous run |
| Schedules.RefusedIsHandedOverAfterADeath | pkg/jobdb/runtime/sqlite/schedule_preflight.go:92-102 | after a refusal and a cancellation that completes, dies between its two writes or dies before them: exactly when a later lease hands the occurrence over, over every run |
| Schedules.HalfCancelledOccurrenceIsHandedOver | pkg/jobdb/runtime/sqlite/schedule_preflight.go:92-102 | so the refused occurrence can ever reach a worker if and only if its cancellation did not complete |
| Schedules.FailurePolicyViolated | pkg/jobdb/schedule.go:518-551 | the two counting loops decide exactly the declared failure limits |
| Schedules.ScheduleTable.UpsertSchedule | pkg/jobdb/runtime/sqlite/schedule.go:89-137 | writes the row the change function gives or refuses; the object's state stays that of its history as a run |
| Schedules.ScheduleTable.MutateScheduleState | pkg/jobdb/runtime/sqlite/schedule.go:421-458 | writes the row the change function gives or refuses; the object's state stays that of its history as a run |
| Schedules.ScheduleTable.Examine | pkg/jobdb/runtime/sqlite/schedule_preflight.go:35-58 | the tests of a preflight on the schedule row decide as the preflight function, and end on its failure window |
| Schedules.ScheduleTable.PreflightScheduleLease | pkg/jobdb/runtime/sqlite/schedule_preflight.go:13-71 | hands over exactly on the preflight verdict, archives a refused occurrence that is open, and submits the successor of a passed one, as a step of a run |
| Schedules.ScheduleTable.SubmitScheduledOccurrence | pkg/jobdb/runtime/sqlite/schedule.go:475-551 | submits an occurrence once per job id, from a row that may be older than the table |
| Schedules.SuccessorIsCurrent | pkg/jobdb/runtime/sqlite/schedule_preflight.go:60-70 | the successor a preflight submits passes its own preflight against the unchanged schedule exactly when its failure window allows it |
| Pages.SortSorts | pkg/jobdb/runtime/sqlite/runtime.go:795-800 | the listing order is strict and loses and invents no job |
| Pages.ListingOrder | pkg/jobdb/runtime/sqlite/runtime.go:795-800 | later jobs come first, and of two created at one time the one whose name is greater in byte order |
| Pages.PageIsStretch | pkg/jobdb/runtime/sqlite/runtime.go:775-809 | the page after any cursor is the next stretch of the full listing |
| Pages.ListJobs | pkg/jobdb/runtime/sqlite/runtime.go:698-809 | the row loop with its cursor test gives the specified page |
| Pages.Walk | pkg/jobdb/runtime/sqlite/runtime.go:656-667 | following the cursors returns every matching job exactly once, newest first, and stops |
| Pages.FindWaitingTasks | pkg/workflow/runtime_task_handle.go:24-74 | the search returns the first Limit matches of the listing, whatever page sizes it asks for |
| CronFields.SplitIsCut | pkg/jobdb/schedule_trigger.go:121-134 | splitting cuts a text at every separator and nowhere else |
| CronFields.ParseCronField | pkg/jobdb/schedule_trigger.go:121-157 | the loops over segments and values compute the field's set, with the source's 64-bit step arithmetic |
| CronFields.FieldIsExactUnlessItWraps | pkg/jobdb/schedule_trigger.go:121-192 | a field is parsed to exactly what its commas, ranges and steps denote if and only if no step carries its last value past 64 bits |
| CronText.ItemRoundTrip | pkg/jobdb/schedule_trigger.go:126-192 | a term written as text, with or without a step, is parsed to its span and refused exactly when out of bounds |
| CronText.FieldRoundTrip | pkg/jobdb/schedule_trigger.go:121-192 | a field written from any list of terms is parsed to the union of what they denote, and refused exactly when one of them is out of bounds |
| CronFields.WrappedStepMarksAnotherMinute | pkg/jobdb/schedule_trigger.go:146-152 | a step that wraps marks a minute the text does not denote |
| Calendar.CalendarRoundTrip | pkg/jobdb/schedule_trigger.go:194-201 | the calendar walked day by day agrees with counting days by the leap-year rule |
| Calendar.UnixEpoch | pkg/jobdb/schedule_trigger.go:194-201 | the calendar's days and weekdays are anchored at the Unix epoch |
| Calendar.WeekdaysFollow | pkg/jobdb/schedule_trigger.go:194-201 | weekdays follow each other from Sunday to Saturday and around, for every day, anchored at the epoch |
| Calendar.DateIsOfItsNumber | pkg/jobdb/schedule_trigger.go:194-201 | every date is the date of its day number |
| CronSearch.FirstIsEarliest | pkg/jobdb/schedule_trigger.go:61-64 | the cursor starts at the earliest minute that is after `after` and not before StartAt's minute |
| CronSearch.SearchMinutes | pkg/jobdb/schedule_trigger.go:61-82 | the search answers the earliest eligible matching minute not past EndAt, or truly none, within its window |
| CronSearch.MatchesByDate | pkg/jobdb/schedule_trigger.go:194-201 | a minute named by date and time of day matches exactly if the expression names its minute, hour, day, month and weekday |
| CronSearch.NextScheduleFire | pkg/jobdb/schedule_trigger.go:33-85 | both trigger kinds, with every refusal |
| CronSearch.ParseCronSpec | pkg/jobdb/schedule_trigger.go:93-119 | five fields, each with its own bounds, weekday 7 read as Sunday |
| CronExpressions.FieldSaysWhatIsWritten | pkg/jobdb/schedule_trigger.go:121-192 | a field's text is refused exactly if a term is out of bounds, and else holds exactly the values its terms cover; on weekdays 7 is Sunday |
| CronExpressions.ExpressionSaysWhatIsWritten | pkg/jobdb/schedule_trigger.go:93-119 | an expression written with any spaces names exactly the minutes, hours, days, months and weekdays that its five fields cover within their bounds |
| WorkerLoop.NeverMoreThanLimit | pkg/workflow/worker_engine.go:208-250 | never more than the limit of leases run at once, and taking a slot never blocks |
| WorkerLoop.NoWakeUpIsLost | pkg/workflow/worker_engine.go:222-229 | while the main loop waits with a free slot a token is there or about to be sent |
| WorkerLoop.WaitingEnds | pkg/workflow/worker_engine.go:252-263 | from any wait the lease goroutines alone bring the loop back to its check within three steps |
| WorkerLoop.SleepingEnds | pkg/workflow/worker_engine.go:264-287 | however the loop came to sleep, it wakes into another round, or, if every slot is taken, into a wait that the leases end |
| WorkerLoop.SleepsWithAllSlotsTaken | pkg/workflow/worker_engine.go:226-271 | it can sleep with every slot taken, after a round in which one poll failed and a later one found a lease |
| WorkerLoop.EmptyRoundsWaitLonger | pkg/workflow/worker_engine.go:264-287 | a loop that finds nothing waits 50 ms, then twice as long each time, up to 30 seconds |
| WorkerLoop.DrainingEnds | pkg/workflow/worker_engine.go:289-297 | a cancelled loop can always return once its leases finish |
| WorkerLoop.ReturnsWhenAllLeft | pkg/workflow/worker_engine.go:289-297 | the loop returns only after every lease goroutine has left |

## Left out

- Crash.CrashSimulation: no invocation or total timeouts (their deadlines depend on wall-clock time), no `AwaitJobs` or `AwaitDuration` inside a job, no concurrent `DoTask` calls; timestamps, artifacts and error input references are not compared; a visit that only parked has no result to compare; a chapter write that fails ends the visit.
- Replay.CutLogMisses: before a failed job outcome the replay may instead return the failure it reached again, because a replay returns a failure it recomputed; a back-off still running at the cut is reported as not ready.
- JobRunInverse.GetJobRunInvertsWriter: for locally run tasks; the attempt and the task run that `GetJobRun` makes up for a job still open, and its options for leaving out inputs, outputs and artifacts, are not modelled.
- Restart.RestartTakesUpTheCut: no extra output and no success prerequisites on restart; schema validation of the kept chapters is a library call.
- ChapterStores.RepeatedRestartAgrees: compares chapters as a whole, not artifact digests, and only without requested extra output.
- JobTable.Runtime.AcquireOneLease: no metadata filter; the candidate query is taken at its word (every unarchived job, oldest first).
- LeaseRuns.ArchivalIsAbsorbing: a story is not frozen by archival, since an external completion saves its chapter before its guarded update.
- TokenRuns.ValidTokenMeansHeldLease: for one client that renews one call at a time.
- HandOff.SuccessIsWhatTheWorkerSees: for later visits that find no recorded back-off still running; the task name in the output chapter is the capability, not the part after its colon.
- Timelines.BackoffsAreKept: coefficients and lengths are exact, so float rounding and overflow of a length past 64 bits are not modelled; deadlines do not shorten a wait; time passes only before a back-off is looked at and before a chapter is written.
- Submit.RepeatedSubmitConverges: one call after another, not concurrent; an empty but present list of non-retryable types is not told apart from a missing one; metadata values are strings.
- Schedules.OldOccurrenceIsNeverHandedOver: each preflight is one step; in whole runs the successor a preflight submits is an ordinary submit event; chapters written and jobs closed by workers are events of a run without a method.
- Pages.Walk: one table and one clock reading; identifiers contain no slash; the filters are one predicate.
- CronSearch.NextScheduleFire: UTC only, instants from year 1 on.
- Submits, external completions, token renewals, visits with a clock and the worker loop as objects: modelled on values, as step functions, because their subject is interleaving and crash points between transactions.
- HTTP handlers and clients, SQL text, the Postgres and toy backends, blob stores, command line, logging and generated code: plumbing.
- Wire, API and clone codecs, JSON text, base64 and HMAC: case splits or library calls; they would add easy members.
- Backward chapter paging, `PollWork`'s long-poll timer and its attempt budget, and observer events.
