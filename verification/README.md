# CloudQue in Dafny

CloudQue is a platform that runs training jobs on a GPU machine reached over SSH. Users submit
jobs that name the GPU cards they need; jobs wait in a priority queue; a scheduler takes cards,
launches the job remotely, watches its process and gives the cards back. Around this core it
offers web terminals, menus by role and a WebSocket pool. This project models the parts of it
that keep state, and proves what they keep.

- `Text`, `Sets`, `Entity`: Go strings and integers, lists without repeats, job rows.
- `GpuIds`: the card list of a job, printed at submission and parsed by the scheduler.
- `SortedSet`, `QueueService`: the Redis sorted set, scores, and manual reordering.
- `GpuAllocator`: the table of cards and the lossy cache in front of it.
- `JobService`: submitting, cancelling, removing.
- `Cluster`: the scheduler's tables and maps as one value, `World`, and each step in closed form.
- `Scheduler`: the same steps as the program takes them, field by field and with every early
  return, proved equal to the closed forms.
- `SchedulerInvariant`, `SchedulerRuns`: what every step keeps, and what that means for every run.
- `Recovery`: one pass of recovery or audit, and where the promises of the code stop.
- `Outcomes`: which answers lead to what, for a start, a tick, the end of a monitor and a pass.
- `CrashPoints`, `StrayCards`: what a crash in the middle of a method leaves, and for how long.
- `TwinRun`: runs that part cards and Running jobs, and that overwrite a status. `Unwatched`: jobs that
  nothing looks after. `QueueMembership`: who is in the queue.
- `QueueLock`: the distributed lock as a timed protocol of any number of instances.
- `Utf8`, `TerminalSession`, `TerminalRegistry`: the terminal stream and its session map.
- `MenuTree`: the menu forest. `WebSocketPool`: the connection pool.

Everything outside (remote launch, probes, database and Redis answers) is a parameter, the
`…Outcome` record of each operation, and every theorem holds for all its values unless a
`requires` says otherwise. One method of the program is one step, which a crash may cut short after
any of its writes; in the terminal modules one lock-protected section is one step.

## What the code does differently from what one may expect

- A job id in the queue whose row is missing is not dropped: the row lookup reports an error, so
  the branch for a missing job is never taken (internal/service/scheduler_service.go:187-199). Such
  an id stays in the queue for good and stops it at the head: `QueueMembership.RowlessIdStays`,
  `QueueMembership.RowlessHeadBlocks`. It gets there when a queue write takes effect although it
  answers an error: `QueueMembership.LandedWriteLeavesRowless`.
- A waiting job can drop out of the queue, for example when a start fails before the job is marked
  Running; `QueueMembership.NobodyLostExactly` names all such steps. It comes back only when
  somebody moves it by hand: `QueueMembership.OutsideUntilMoved`, `QueueMembership.MovedIsBack`.
- A launch whose later process rows or pid-cache entry cannot be written leaves a Running, tracked
  job that no monitor watches (`Recovery.WatchedOrReclaimedExactly`) and that no audit reclaims
  before the next restart (`Unwatched.ForsakenUntilRestart`).
- A crash between taking cards and marking the job Running, or between a final status and the release
  of the cards, leaves cards busy that nothing ever frees: `StrayCards.StrayForever`.
- Releasing does not look at the holder, recovery starts one monitor per process row, and a monitor
  that stops with the scheduler frees the cards of a job that stays Running. So exclusion holds
  exactly as long as monitor exits and crashes are safe: `SchedulerRuns.ExclusionExactly`, with a run
  that breaks it in `TwinRun.TwinFreesAnothersCard`. The second of two monitors may also overwrite the
  final status: `SchedulerRuns.RunForwardExactly`, `TwinRun.TwinOverwritesVerdict`.
- A graceful stop frees cards while the processes go on. The next recovery fails the job, or, if a
  row could not be ended, keeps it Running with its cards idle: `Recovery.StoppedJobExactly`.
- A release whose cache write is lost leaves an idle card refused: `GpuAllocator.LostIdleWriteRefuses`;
  `GpuAllocator.SoundRunExactly` and `GpuAllocator.AnswersAgreeExactly` say exactly when the cache is
  sound and when it agrees with the table.
- Priority is respected only while fewer than a billion sequence numbers per priority step lie
  between two waiting jobs: `QueueService.RunOrderExactly`, `QueueService.GapRunsOut`.
- "Only the head of the queue is WaitingGpu" does not survive every move, because the fix of a
  status may fail and the move still answers success, nor every arrival, because a new job of higher
  priority overtakes a waiting head: `QueueService.MoveKeepsOnlyHeadWaitsExactly` and
  `QueueService.EnqueueKeepsOnlyHeadWaitsExactly` say exactly when it is kept.
- Idle cleanup of terminals goes by key and does not look again, so it may close a session that has
  replaced the idle one, or the same one in use again: `TerminalRegistry.TakenIsIdleExactly`.
- README.md of the repository promises that history is sent again on reconnecting (line 85).
  HandleTerminalConnection closes the old session, history included, and drops what joining returns
  (internal/service/terminal_service.go:354 and 440): `TerminalRegistry.ReconnectStartsAnew`,
  `TerminalSession.JoinerHearsOnlyNew`.
- The pool never forgets a closed client whose role is neither "user" under its own id nor "admin", or
  that has no metadata: `WebSocketPool.CounterAgrees`.
- Menus on a cycle of parents are silently left out of the forest: `MenuTree.ForestCount`.

## Model

| member | source | states |
|---|---|---|
| `SchedulerRuns.ExclusionExactly` | internal/service/scheduler_service.go:338-741 | in every run of submit, cancel, remove, move, tick, monitor exit (shutdown included), audit, card discovery, crash with recovery, and crashes between any two writes of a start, a monitor's end, an audit or a recovery, with any answers: cards and Running jobs match at every moment exactly when every monitor exit freed no card of another Running job and no crash fell between two writes that belong together |
| `SchedulerRuns.CardExclusion` | internal/service/scheduler_service.go:338-505 | in every such run, as long as all steps were safe in that sense, a card is busy under a job exactly when that job is Running and lists it; two Running jobs never share a card; every busy card has a Running holder |
| `SchedulerRuns.CardConservation` | internal/repository/gpu_repository.go:54-110 | in every such run, as long as all steps were safe, the number of busy cards is the sum of the Running jobs' card counts |
| `SchedulerRuns.OrderlyRunsAreSafe` | internal/service/scheduler_service.go:157-741 | from a fresh start every step is safe, and every verdict the first, when pids are not reused while tracked, monitors do not stop with the scheduler, crashes fall between methods and restarts are orderly |
| `TwinRun.TwinFreesAnothersCard` | internal/service/scheduler_service.go:592-622 | the condition is needed: a run from a fresh start, safe but for its last step, in which a job on two cards is recovered with two monitors and the second exit frees a card under another Running job |
| `TwinRun.TwinOverwritesVerdict` | internal/service/scheduler_service.go:519-558 | a run from a fresh start in which the second of two monitors turns a job that Failed with code 1 into a Completed one |
| `SchedulerRuns.LaunchedAtMostOnce` | internal/service/scheduler_service.go:346-406 | in every run, with crashes between any two writes, shutdowns, reused pids and failing lookups, the remote launch is asked for at most once per job, and a launched job never waits again |
| `CrashPoints.StartCutExactly` | internal/service/scheduler_service.go:338-463 | a start cut short by a crash after any of its writes leaves cards and Running jobs matched exactly when the cut is neither between taking the cards and marking the job nor between giving them back and failing it |
| `CrashPoints.ExitCutExactly` | internal/service/scheduler_service.go:473-558 | the end of a monitor cut short before its release leaves them matched exactly when it gives no verdict, the job is not Running any more or lists no card |
| `CrashPoints.PassCutExactly` | internal/service/scheduler_service.go:575-741 | an audit or a recovery cut short leaves them matched exactly when it is not cut between failing a job with cards and freeing those |
| `CrashPoints.AllWritesAreTheStep` | internal/service/scheduler_service.go:338-463 | the writes of executeJob one after another, in its order, come to the step that it is |
| `StrayCards.UnsafeCutStrays` | internal/service/scheduler_service.go:342-347 | a crash that parts cards and Running jobs leaves a card busy under a job that is not Running, unless it falls between giving cards back and failing the job |
| `StrayCards.StrayForever` | internal/service/scheduler_service.go:564-741 | in every run such a card stays busy under that job for good, and the job never runs: no recovery, audit, monitor or tick frees it |
| `StrayCards.FreedUnfailedExactly` | internal/service/scheduler_service.go:407-419 | after a crash between giving cards back and failing the job, a recovery repairs the match exactly when it examines that job |
| `SchedulerRuns.RunForwardExactly` | internal/service/scheduler_service.go:201-265 | in every run, at every step, Completed, Failed and Cancelled are final, Running only becomes Completed or Failed and the launch log only grows, exactly when no monitor gave a second, different verdict |
| `SchedulerRuns.RunForward` | internal/service/scheduler_service.go:519-558 | and then the same holds between any two moments |
| `SchedulerRuns.RunSettled` | internal/service/scheduler_service.go:346-352 | in every run, with no condition, a Running, Completed or Failed job never waits again and keeps its card list |
| `SchedulerInvariant.TickKeepsInv` | internal/service/scheduler_service.go:157-265 | a pass over the queue head with any combination of failures preserves the invariant |
| `SchedulerInvariant.StartKeepsInv` | internal/service/scheduler_service.go:338-463 | each of the nine exits of executeJob preserves the invariant |
| `Scheduler.ExecutedAllOrNothing` | internal/service/scheduler_service.go:338-463 | every exit of executeJob leaves the job Running with all its distinct cards busy under it, or not Running with the card table unchanged |
| `SchedulerInvariant.MonitorKeepsInv` | internal/service/scheduler_service.go:466-561 | the exit of a monitor for any reason but shutdown preserves the invariant |
| `SchedulerInvariant.AuditKeepsInv` | internal/service/scheduler_service.go:640-694 | an audit with any lookup and probe errors preserves the invariant |
| `SchedulerInvariant.AuditFinds` | internal/service/scheduler_service.go:640-694 | in a run the audit ends no rows and finds exactly the Running jobs without an active row |
| `SchedulerInvariant.RestartKeepsInvExactly` | internal/service/scheduler_service.go:564-637 | a crash and any recovery keep cards and Running jobs matched; they keep the whole invariant exactly when every process of a Running job is found alive or dead and no job has two live rows |
| `SchedulerInvariant.FreedExact` | internal/repository/gpu_repository.go:100-110 | finishing a set of jobs and freeing exactly the cards they list keeps cards and Running jobs matched |
| `Outcomes.LaunchedExactly` | internal/service/scheduler_service.go:338-406 | the remote launch is asked for exactly when the cards are distinct and idle and the transaction, the Running write, the script path, the card lookup and the access check are all in order |
| `Outcomes.RunningExactly` | internal/service/scheduler_service.go:338-463 | a start leaves the job Running exactly when it was marked and the card lookup failed or the launch worked; then only its status and exactly its cards have changed |
| `Outcomes.GivenUpExactly` | internal/service/scheduler_service.go:354-419 | a start fails the job and dequeues it exactly when it was marked and has no script, no access or no process; a job that is neither Running nor Failed afterwards is unchanged |
| `Outcomes.RowsExactly` | internal/service/scheduler_service.go:434-445 | one process row per card, in order, up to the first that cannot be inserted |
| `Outcomes.TrackedExactly` | internal/service/scheduler_service.go:421-432 | the running map gains exactly the launched process |
| `Outcomes.MonitoredExactly` | internal/service/scheduler_service.go:434-455 | a monitor is started exactly when all rows and the pid cache were written |
| `Outcomes.TickLaunchesExactly` | internal/service/scheduler_service.go:157-265 | a tick launches the head exactly when lock, peek and read work, it is pending with cards, the check answers and neither cache nor table denies, and the start comes to its launch; it never launches another job |
| `Outcomes.TakenCardsMakeWait` | internal/service/scheduler_service.go:233-247 | a pending head whose cards the cache denies or the table has not idle becomes WaitingGpu, if that write works, and nothing else changes |
| `Outcomes.TickDiscards` | internal/service/scheduler_service.go:201-231 | a head that may not start or lists no card is taken out of the queue and nothing else changes |
| `Outcomes.StartDequeues` | internal/service/scheduler_service.go:249-264 | after a start, however it ended, the job and no other has left the queue |
| `Outcomes.TickWithoutAnswer` | internal/service/scheduler_service.go:157-191 | a tick that cannot read its head or learn about the cards changes nothing |
| `Outcomes.VerdictByReason` | internal/service/scheduler_service.go:519-558 | Completed after exit code zero or unreadable, Failed after any other code or lost contact, unchanged on shutdown; no other job changes |
| `Outcomes.CleanedUp` | internal/service/scheduler_service.go:473-505 | the pid is untracked, one monitor gone, exactly the listed cards idle, exactly the job's active rows that can be looked up and written ended |
| `Outcomes.AuditDoes` | internal/service/scheduler_service.go:640-694 | an audit fails a job exactly when it reads it and finds no active row or a dead one that is not tracked, ends exactly such dead rows whose update works, and frees exactly the cards of the jobs it fails |
| `Outcomes.RecoveryDoes` | internal/service/scheduler_service.go:564-637 | a recovery does the same with nothing tracked |
| `Scheduler.Scheduler.ExecuteJob` | internal/service/scheduler_service.go:338-463 | the imperative body equals the closed form on every path, makes its writes in the order that the crash points assume, and leaves all cards or none |
| `Scheduler.Scheduler.RunHeldJob` | internal/service/scheduler_service.go:354-406 | the part that runs with cards held and the job Running ends in the state of the closed form |
| `Scheduler.Scheduler.Launch` | internal/service/scheduler_service.go:405-463 | a refused launch undoes everything; an accepted one is logged once and leaves rows, tracking and monitor as far as the writes went |
| `Scheduler.Scheduler.TrackLaunch` | internal/service/scheduler_service.go:421-455 | one row per card up to the first failed insert; a monitor exactly when all rows and the pid cache were written |
| `Scheduler.Scheduler.ProcessQueue` | internal/service/scheduler_service.go:157-265 | one tick equals its closed form, with every early return |
| `Scheduler.Scheduler.ProcessPending` | internal/service/scheduler_service.go:211-265 | a head job that may start is discarded, made to wait, or started as the closed form says |
| `Scheduler.WatchProcess` | internal/service/scheduler_service.go:507-560 | the watch loop leaves at the first tick that is a shutdown, a vanished process or the tenth failed probe in a row, never earlier, and reports that reason |
| `Scheduler.Scheduler.WriteEndStatus` | internal/service/scheduler_service.go:519-558 | Failed after lost contact or a non-zero exit code, Completed after a zero or unreadable one, unchanged on shutdown |
| `Scheduler.Scheduler.CleanUp` | internal/service/scheduler_service.go:473-505 | the deferred cleanup untracks the pid, ends the job's active rows and frees its cards |
| `Scheduler.Scheduler.EndRows` | internal/service/scheduler_service.go:487-499 | ends exactly the job's active rows whose update succeeds, in any order |
| `Scheduler.Scheduler.FinishMonitor` | internal/service/scheduler_service.go:466-561 | status by reason, spelled out, and cleanup together equal the closed form |
| `Scheduler.Scheduler.MonitorJob` | internal/service/scheduler_service.go:466-561 | what becomes of a job, from what its monitor saw and the exit code: nothing before the first tick with a reason to leave, then the status for that reason, and its cards idle |
| `Scheduler.Scheduler.HandleMissingProcess` | internal/service/scheduler_service.go:714-741 | fails the job, ends the given row if there is one, frees the job's cards |
| `Scheduler.Scheduler.AuditRunningJobs` | internal/service/scheduler_service.go:640-694 | the nested loops, in any order of jobs and rows, reclaim exactly the jobs without active rows or with a dead untracked one |
| `Scheduler.Scheduler.RecoverRunningJobs` | internal/service/scheduler_service.go:564-637 | the nested loops, in any order, reclaim exactly the jobs without rows or with a dead one, and track and monitor each live row |
| `Recovery.LiveJobSurvives` | internal/service/scheduler_service.go:592-622 | after an error-free recovery a Running job with a live pid is unchanged, its rows and cards untouched, and each of its rows has a monitor and a tracked pid, under this job unless another Running job shares the pid |
| `Recovery.DeadJobReclaimed` | internal/service/scheduler_service.go:575-637 | every other Running job is Failed with no active row and all its cards idle |
| `Recovery.AuditAfterRecovery` | internal/service/scheduler_service.go:640-694 | an audit right after such a recovery changes nothing, whatever it probes |
| `Recovery.AuditSparesTracked` | internal/service/scheduler_service.go:669-677 | jobs whose pids are tracked keep status, rows and cards |
| `Recovery.AuditJustifiesBusyCards` | internal/service/scheduler_service.go:640-694 | from any state where busy cards match Running jobs, after a pass that reads everything they match again and every busy card's holder is Running with an active row |
| `Recovery.AuditReclaimsRowless` | internal/service/scheduler_service.go:371-376 | a job left Running without rows by a failed card lookup is failed and its cards freed |
| `Recovery.WatchedOrReclaimedExactly` | internal/service/scheduler_service.go:430-455 | at every exit of executeJob a job left Running is watched by a monitor or reclaimed by the next audit that reads everything, exactly unless the exit comes after the first process row and before the monitor |
| `Unwatched.ForsakenUntilRestart` | internal/service/scheduler_service.go:640-694 | in every orderly run, until the next restart and whatever is audited, a Running, tracked job without a monitor stays so and keeps its cards |
| `Unwatched.TickForsakes` | internal/service/scheduler_service.go:430-455 | a start that fails after its first process row and before its monitor leaves such a job |
| `Recovery.TwinMonitorsExactly` | internal/service/scheduler_service.go:592-622 | recovery gives some process several monitors exactly when a Running job has several live rows |
| `Recovery.MonitorExitExactly` | internal/service/scheduler_service.go:473-505 | a monitor exit for any reason, shutdown included, keeps cards and Running jobs matched exactly when no Running job, but for the one that ends, lists one of its cards |
| `Recovery.InvExitSafe` | internal/service/scheduler_service.go:473-517 | in an orderly run every exit is safe but a shutdown of a job with cards |
| `Recovery.StoppedJobExactly` | internal/service/scheduler_service.go:473-517 | after a graceful stop, whichever row lookups and updates failed, the cards are idle; the next recovery that reads everything fails the job exactly when no row left active is alive, and otherwise keeps it Running without its cards |
| `QueueLock.MutualExclusion` | internal/service/scheduler_service.go:165-173 | with any number of instances and fresh tokens, if each holder's renewals succeed less than one TTL apart, at most one instance is inside at any time |
| `QueueLock.OverdueHolderIsJoined` | internal/service/scheduler_service.go:267-280 | the condition is needed: an overdue holder is joined by the next attempt |
| `QueueLock.LockIsKept` | internal/service/scheduler_service.go:282-335 | with no assumption about time, a key stays with its token until it runs out or that token's own pass deletes it |
| `QueueLock.OthersChangeNothing` | internal/service/scheduler_service.go:282-335 | until it runs out, a key that its own pass neither renews nor deletes is not deleted, extended or replaced by anyone, however late |
| `QueueLock.GoneForGood` | internal/service/scheduler_service.go:300-335 | once an issued token does not hold the lock it never holds it again: no late renewal recreates a key |
| `QueueLock.AttemptExactly` | internal/service/scheduler_service.go:267-280 | an attempt from outside gets in exactly when there is no current key, and then holds it for a full TTL |
| `QueueLock.RenewalExtends` | internal/service/scheduler_service.go:300-335 | a renewal of the current token makes its key run a full TTL from now |
| `QueueLock.ReleaseDeletes` | internal/service/scheduler_service.go:282-298 | the release of the current token deletes its key and changes nothing else |
| `QueueLock.NextGetsIn` | internal/service/scheduler_service.go:267-298 | in every run, once the holder's release has arrived, the next attempt of any instance gets in |
| `QueueLock.LeavingExactly` | internal/service/scheduler_service.go:165-173 | leaving or crashing puts exactly that instance outside |
| `QueueService.RunOrderExactly` | internal/service/queue_service.go:17-67 | over every run of enqueues and removals the listing is by priority, then by arrival, exactly when every two jobs that wait together are in their window: the later one is less than a gap per priority step ahead, or exactly that and its printed id is smaller |
| `QueueService.BillionIsWindowed` | internal/service/queue_service.go:17-45 | within the first billion sequence numbers all waiting jobs are in their window |
| `QueueService.RunMembers` | internal/service/queue_service.go:32-67 | in every run the queue holds exactly the waiting jobs |
| `QueueService.RunPeekAndRank` | internal/service/queue_service.go:48-62 | the head beats every other waiting job, and the rank of a job is the number of waiting jobs that beat it |
| `QueueService.RunScoresExact` | internal/service/queue_service.go:32-45 | with priorities 1 to 10 all scores are positive integers below 2^53, so float64 is exact |
| `QueueService.ScoreOrder` | internal/service/queue_service.go:32-45 | a higher priority wins exactly while the later job's sequence number is less than a gap per priority step ahead |
| `QueueService.GapRunsOut` | internal/service/queue_service.go:17-21 | after a billion enqueues a priority-2 job gets the score of an old priority-1 job, then a worse one |
| `QueueService.MoveBeforeOrder` | internal/service/queue_service.go:154-195 | on distinct scores a move that is stored gives the old order with the job taken out and put directly before the target, unchanged for a move before itself, and keeps scores distinct |
| `QueueService.MoveKeepsOnlyHeadWaitsExactly` | internal/service/queue_service.go:181-214 | a move, whatever fails in it, keeps "only the head may be WaitingGpu" exactly when nothing is moved or neither the old head nor the moved job is left waiting behind the new head without its fix |
| `QueueService.LostFixLeavesHeadWaiting` | internal/service/queue_service.go:188-214 | a concrete move that answers success and breaks it: the fix of the old head is lost |
| `QueueService.EnqueueKeepsOnlyHeadWaitsExactly` | internal/service/queue_service.go:32-45 | an arrival keeps "only the head may be WaitingGpu" exactly when it does not go in front of a head that waits |
| `QueueService.OvertakenHeadStillWaits` | internal/service/queue_service.go:32-45 | a concrete arrival that breaks it: priority 2 after a waiting priority 1 |
| `QueueService.MoveStatuses` | internal/service/queue_service.go:198-214 | whatever fails on the way, a move changes no status but WaitingGpu to Queued |
| `QueueService.MoveDemotesExactly` | internal/service/queue_service.go:188-214 | a move turns a status into Queued exactly for a WaitingGpu job behind the new head whose fix works; never that of the head |
| `QueueService.MoveMarks` | internal/service/queue_service.go:185-187 | a stored and marked move marks exactly the moved job |
| `QueueMembership.NobodyLostExactly` | internal/service/scheduler_service.go:201-265 | in every run every waiting job is in the queue at every moment exactly when no step lost one: a failed submission whose rollback fails, a removal whose status write fails, a discarded job without cards, or a start that fails before the job is marked Running |
| `QueueMembership.StepLosesExactly` | internal/service/scheduler_service.go:252-264 | each step keeps "every waiting job is queued" exactly when it is none of these |
| `QueueMembership.OutsideUntilMoved` | internal/service/queue_service.go:154-195 | in every run a job with a row that is not queued stays out of the queue until it is moved by hand |
| `QueueMembership.MovedIsBack` | internal/service/queue_service.go:181-184 | a stored move of such a job puts it back |
| `QueueMembership.StepQueue` | internal/repository/queue_repository.go:24-35 | which job each step puts into the queue or takes out of it, for every job |
| `QueueMembership.LandedWriteLeavesRowless` | internal/service/job_service.go:112-128 | an id without a row gets into the queue when the queue write of a submission takes effect, answers an error, and the rollback deletes the row |
| `QueueMembership.RowlessIdStays` | internal/service/scheduler_service.go:186-199 | in every run an id in the queue without a job row stays there as long as it has no row |
| `QueueMembership.RowlessHeadBlocks` | internal/service/scheduler_service.go:186-199 | while such an id is at the head no tick changes anything |
| `QueueService.QueueService.Enqueue` | internal/service/queue_service.go:32-45 | draws a number, scores, stores; a failed draw or write is an error |
| `QueueService.QueueService.GetFrontCount` | internal/service/queue_service.go:217-227 | no answer exactly on a Redis error, -1 only for a job that is not queued, otherwise its position |
| `QueueService.QueueService.NewScore` | internal/service/queue_service.go:160-180 | one billion below the head, or the midpoint to the job in front; none exactly when the target is not queued |
| `QueueService.QueueService.MoveBefore` | internal/service/queue_service.go:154-195 | queue and job rows after a move with any failures, and when it answers success |
| `QueueService.QueueService.FixJobStatusIfMovedFromHead` | internal/service/queue_service.go:198-214 | a WaitingGpu job behind the head becomes Queued, nothing else changes |
| `SortedSet.AddValid` | internal/repository/queue_repository.go:24-31 | ZADD keeps the order and changes one member's score and nothing else |
| `SortedSet.RemoveContents` | internal/repository/queue_repository.go:33-35 | ZREM drops one member and keeps all others |
| `SortedSet.ListingUnique` | internal/repository/queue_repository.go:58-64 | the listing is determined by the members and scores, not by the history |
| `SortedSet.RankValid` | internal/repository/queue_repository.go:66-68 | ZRANK is the position in the listing |
| `GpuAllocator.CountTestExact` | internal/repository/gpu_repository.go:86-98 | the row-count test holds exactly when the ids are pairwise distinct, all exist and all are idle |
| `GpuAllocator.AvailableStaysAcquirable` | internal/repository/gpu_repository.go:54-98 | after a positive test and any number of releases the acquisition cannot be refused |
| `GpuAllocator.FreedHeld` | internal/repository/gpu_repository.go:54-110 | releasing what was just acquired restores the table |
| `GpuAllocator.SoundRunExactly` | internal/service/gpu_service.go:33-132 | over every run of acquire, release, sync and key expiry at any moment, with any lost cache writes, a card cached as busy is busy at every moment exactly when no release lost its write about a card cached as busy |
| `GpuAllocator.RunAnswers` | internal/service/gpu_service.go:84-93 | as long as that holds, the service's answer equals the table's |
| `GpuAllocator.AnswersAgreeExactly` | internal/service/gpu_service.go:84-93 | the two answers agree on every list exactly when no idle card is cached as busy |
| `GpuAllocator.LostIdleWriteRefuses` | internal/service/gpu_service.go:117-132 | one lost SetIdle refuses an idle card |
| `GpuAllocator.DeniesFirst` | internal/repository/gpu_repository.go:183-200 | the cache denies by the first card: a busy record denies, an idle one passes on, a missing one ends the question |
| `GpuAllocator.CacheFollows` | internal/repository/gpu_repository.go:145-164 | writes that arrive leave "1" and the job after an acquisition, "0" and no job after a release |
| `GpuAllocator.SyncRepairs` | internal/service/gpu_service.go:62-72 | discovery records every reported card that is idle or has a job as it is, whatever the cache held |
| `GpuAllocator.UpsertedExactly` | internal/repository/gpu_repository.go:112-120 | after discovery exactly the known and the reported uuids have rows |
| `GpuAllocator.GpuService.Acquire` | internal/repository/gpu_repository.go:54-84 | all cards or none, and which; none on a database error |
| `GpuAllocator.GpuService.CacheCheckAvailable` | internal/repository/gpu_repository.go:166-203 | no, exactly when the first card not recorded idle is recorded busy; yes, exactly when all are recorded idle |
| `GpuAllocator.GpuService.CheckAvailable` | internal/service/gpu_service.go:84-93 | yes exactly when the cache does not deny, the database answers and the cards are distinct and idle, so a yes implies the table's yes; an error exactly when the decision is left to a database that fails |
| `GpuAllocator.GpuService.AcquireCards` | internal/service/gpu_service.go:96-114 | table and cache after an acquisition with any lost cache writes; nothing changes on an empty list, a refusal or a database error |
| `GpuAllocator.GpuService.ReleaseCards` | internal/service/gpu_service.go:117-132 | table and cache after a release with any lost cache writes; a failed update leaves both alone |
| `GpuAllocator.GpuService.SyncCards` | internal/repository/gpu_repository.go:112-120 | new uuids get new idle rows, known ones keep status and job, uuids stay unique; nothing changes on a database error |
| `GpuAllocator.GpuService.SyncGpuCards` | internal/service/gpu_service.go:33-76 | table and cache after discovery with any failed lookups and lost cache writes of the second loop |
| `JobService.JobService.SubmitJob` | internal/service/job_service.go:66-128 | accepted exactly when every step worked; the row lists the cards asked for; a failure with a working rollback leaves the jobs as they were, though not always the queue |
| `JobService.JobService.CancelJob` | internal/service/job_service.go:131-165 | cancelled exactly when the owner asks while the job waits and both writes work; a failure with a working rollback changes nothing |
| `JobService.JobService.RemoveJob` | internal/api/v1/queue/controller.go:101-134 | out of the queue first, then Cancelled if it was waiting |
| `JobService.AcceptedExactly` | internal/service/job_service.go:80-125 | an accepted submission adds one row, the submitter's, Queued, with path and cards asked for, and one queue entry with the score of the user's priority or of 1 |
| `JobService.CancelledExactly` | internal/service/job_service.go:131-165 | only the owner can cancel and only a waiting job; then just its status and its queue entry change, and a failed removal is undone or leaves it Cancelled in the queue |
| `JobService.WithdrawnExactly` | internal/api/v1/queue/controller.go:101-134 | a removal that works takes the entry out and cancels the job if it still waited |
| `JobService.SubmittedCards` | internal/service/job_service.go:96-101 | the cards parsed from an accepted job are those submitted |
| `GpuIds.ParseFormat` | internal/service/scheduler_service.go:697-711 | for every list of 64-bit integers, empty and negative ones included, parsing the stored string gives the list back |
| `GpuIds.FormatGpuIDs` | internal/service/job_service.go:96-101 | the loop that prints the list; what it prints parses back |
| `GpuIds.ParseGpuIDs` | internal/service/scheduler_service.go:697-711 | the parsing loop equals the recursive meaning of the string, unreadable parts skipped |
| `GpuIds.ParseTrims` | internal/service/scheduler_service.go:700-708 | space around a number does not matter |
| `GpuIds.ParseSkips` | internal/service/scheduler_service.go:700-708 | a part with anything but digits, signs and space is skipped |
| `Text.AtoiItoa` | internal/service/scheduler_service.go:211-223 | reading a printed integer gives it back |
| `Text.LexLessExactly` | internal/service/auth_service.go:277-279 | the string order is by the first difference, a proper prefix first |
| `Utf8.FindCut` | internal/service/terminal_service.go:72-93 | the backward scan cuts exactly before an unfinished trailing character |
| `Utf8.SplitInvariance` | internal/service/terminal_service.go:63-112 | however the bytes are split into writes, emitted bytes and remainder are those of a single write, together are the input, and the remainder is at most 3 bytes |
| `Utf8.ChunksAreWhole` | internal/service/terminal_service.go:63-112 | if the input is a prefix of valid UTF-8 (sections 3 and 4 of RFC 3629), every emitted chunk is a run of whole characters |
| `Utf8.CutIsBoundary` | internal/service/terminal_service.go:72-98 | what a single write of a valid prefix emits is valid |
| `Utf8.ValidHoldsNothing` | internal/service/terminal_service.go:72-96 | whole characters are sent out at once: nothing of valid text is held back |
| `TerminalSession.RunFaithful` | internal/service/terminal_service.go:95-176 | over every run of writes, joins, leaves and closing the buffer is the end of the emitted stream and every registered client has an unbroken end of it |
| `TerminalSession.ClientSeesSuffix` | internal/service/terminal_service.go:146-169 | a client's snapshot followed by every later chunk is a contiguous suffix of the stream; the buffer of an open session is exactly the last min(limit, total) bytes |
| `TerminalSession.JoinerHearsOnlyNew` | internal/service/terminal_service.go:424-450 | a client that joins an open session is sent exactly what is emitted from then on; what it is not sent is exactly the history that joining returned |
| `TerminalSession.LeaverHearsNothing` | internal/service/terminal_service.go:171-176 | a client that has left is sent nothing more until it joins again |
| `TerminalSession.ClosedForGood` | internal/service/terminal_service.go:224-241 | a closed session stays closed, with nobody registered and joins refused |
| `TerminalSession.CloseForgets` | internal/service/terminal_service.go:230-236 | closing throws history and remainder away |
| `TerminalSession.WritesEmit` | internal/service/terminal_service.go:63-112 | a session that is only written to emits what one write of everything would |
| `TerminalSession.TerminalSession.Write` | internal/service/terminal_service.go:63-112 | the new session state, the bytes sent and the clients they go to |
| `TerminalSession.TerminalSession.AppendOutput` | internal/service/terminal_service.go:146-155 | the last bytes of buffer and data, with the default limit restored when it is not positive |
| `TerminalSession.TerminalSession.AddClient` | internal/service/terminal_service.go:157-169 | registers and returns the history; a closed session does neither |
| `TerminalSession.TerminalSession.Close` | internal/service/terminal_service.go:224-259 | the first close empties the session and returns its clients, later ones do nothing |
| `TerminalRegistry.OpenXorClosed` | internal/service/terminal_service.go:296-346 | over every run of open, close, close-by-key, per-user close, close-all and idle cleanup, when no close is under way each session is either open and in the map under its own key or closed and absent; a closed session is never in the map |
| `TerminalRegistry.WaitSparesSuccessor` | internal/service/terminal_service.go:481-493 | the Wait callback of an old session leaves every other session where it is |
| `TerminalRegistry.WaitTakesOwn` | internal/service/terminal_service.go:481-493 | the Wait callback takes out its own session if that is still in the map |
| `TerminalRegistry.DetachUserExactly` | internal/service/terminal_service.go:496-512 | closing user u takes out exactly u's sessions |
| `TerminalRegistry.DetachAllEmpties` | internal/service/terminal_service.go:515-528 | closing everything empties the map and sends every session to be closed |
| `TerminalRegistry.PrefixSelectsUser` | internal/service/terminal_service.go:496-504 | a key has the prefix "u:" exactly when it belongs to user u |
| `TerminalRegistry.KeysDistinct` | internal/service/terminal_service.go:261-263 | equal keys mean equal user and root flag |
| `TerminalRegistry.ReconnectStartsAnew` | internal/service/terminal_service.go:349-422 | reconnecting closes the old session, history included, and joins a new one, or none if connecting fails |
| `TerminalRegistry.TakenIsIdleExactly` | internal/service/terminal_service.go:531-562 | the session that a cleanup round takes out is idle at that moment if it is the one the scan found and was not used since, and only if, as long as the round is no longer than the timeout |
| `TerminalRegistry.IdleCleanupClosesSuccessor` | internal/service/terminal_service.go:531-562 | a session opened under a collected key before the cleanup reaches it is closed although new |
| `TerminalRegistry.IdleCleanupClosesUsed` | internal/service/terminal_service.go:537-557 | a session used between the scan and its turn is closed although in use |
| `TerminalRegistry.TerminalService.GetOrCreateTerminalSession` | internal/service/terminal_service.go:296-346 | reuses an open session, drops a closed one, stores a new one only when connected |
| `TerminalRegistry.TerminalService.HandleTerminalConnection` | internal/service/terminal_service.go:349-422 | nothing changes when the first connection check fails; otherwise the calls it makes bring the registry to the state above |
| `TerminalRegistry.TerminalService.DetachSession` | internal/service/terminal_service.go:465-479 | takes out the session under the owner's key |
| `TerminalRegistry.TerminalService.DetachExpected` | internal/service/terminal_service.go:481-493 | takes out the expected session or nothing |
| `TerminalRegistry.TerminalService.DetachUserSessions` | internal/service/terminal_service.go:496-512 | the loop over the map takes out exactly the keys with the user's prefix |
| `TerminalRegistry.TerminalService.DetachAllSessions` | internal/service/terminal_service.go:515-528 | empties the map and collects every session |
| `TerminalRegistry.TerminalService.CollectIdleKeys` | internal/service/terminal_service.go:537-547 | the loop over the map collects exactly the keys of sessions idle for more than 30 minutes |
| `TerminalRegistry.TerminalService.DetachIdleKey` | internal/service/terminal_service.go:549-557 | takes out and returns whatever is under a collected key |
| `MenuTree.BuildMenuTree` | internal/service/auth_service.go:252-297 | for any order of going through the maps: the answer is exactly the menus with parent 0 or an absent parent, sorted by (sort, title); there is one node per id, pointing to exactly its children, sorted; following the pointers in memory ends and shows each id that reaches a root exactly once and no other |
| `MenuTree.ShowsSpells` | internal/service/auth_service.go:273-288 | the tree found in memory below a node is the tree its id stands for in the table |
| `MenuTree.ForestCount` | internal/service/auth_service.go:273-288 | an id occurs in the forest exactly once if climbing parents from it reaches a root, and not at all otherwise |
| `MenuTree.EveryMenuOnce` | internal/service/auth_service.go:252-297 | with distinct ids and no cycle of parents every menu occurs exactly once |
| `MenuTree.AcyclicExactly` | internal/service/auth_service.go:284-287 | no menu is its own ancestor exactly when every menu reaches a root |
| `MenuTree.ForestExists` | internal/service/auth_service.go:273-288 | following the pointers from the roots always ends, cycles elsewhere or not |
| `MenuTree.OneAnswer` | internal/model/entity/menu.go:6 | with distinct titles any two builds give the same forest |
| `MenuTree.SameAnswer` | internal/service/auth_service.go:252-297 | two answers built for the same menus with distinct titles, whatever their map orders, show the same forest in memory |
| `MenuTree.ListingUnique` | internal/service/auth_service.go:276-281 | with distinct titles a set of menus has one sorted listing |
| `MenuTree.ListingAscends` | internal/service/auth_service.go:276-281 | a listing goes up by sort value, and by title where those are equal |
| `MenuTree.TableHolds` | internal/service/auth_service.go:255-266 | with distinct ids the node map holds exactly the menus given |
| `MenuTree.LastMenuWins` | internal/service/auth_service.go:255-266 | of several menus with one id the last is kept |
| `MenuTree.GroupChildren` | internal/service/auth_service.go:267-271 | in any order, each id gets exactly the nodes whose parent it is, once each |
| `MenuTree.AttachChildren` | internal/service/auth_service.go:273-288 | in any order, every node gets its sorted children and each root is copied once, with them |
| `WebSocketPool.CounterAgrees` | pkg/websocket/pool.go:62-131 | over every run of adding clients of any role and repeated closing: the counter is the number of open system-info administrators, no user has an empty set, and a client is in the maps exactly when it is open, or closed with a role that is neither "admin" nor "user" under the id it was added for |
| `WebSocketPool.HeldIsOpen` | pkg/websocket/pool.go:99-131 | the clients the pool holds are the open ones exactly when every closed one was an administrator or a user under its own id |
| `WebSocketPool.ConnectionPool.Add` | pkg/websocket/pool.go:62-96 | registers the client by role and counts a system-info administrator |
| `WebSocketPool.ConnectionPool.Close` | pkg/websocket/pool.go:99-131 | only the first close of a client has an effect, and which; it panics exactly when the client has no metadata |
| `WebSocketPool.ConnectionPool.GetTotalConnectionCount` | pkg/websocket/pool.go:263-271 | the total is the number of clients the pool holds |
| `WebSocketPool.ConnectionPool.CloseAll` | pkg/websocket/pool.go:287-311 | unless a client without metadata makes it panic, nobody is open afterwards, no administrator is left and the counter is zero; with well-formed roles the pool is empty |

## Left out

- Interleavings inside one method (an audit during a launch, a cancel during a tick): each method is one step, as the code does not guard them. Crashes inside the scheduler's methods are steps; inside submit, cancel, remove and move they leave what a failure of the next write leaves, and have no step of their own.
- Remote execution, SSH, SFTP and probing: answers are parameters. Within one pass a pid has one probe answer.
- GORM, MySQL and Redis internals: maps, a sorted set, hashes and a key with expiry. The gpu name index and the width of the `gpu_ids` column are not modelled.
- Status and release writes on cleanup paths of executeJob, monitors and reclaiming are taken to succeed; queue removals and process-row updates may fail.
- SchedulerRuns.OrderlyRunsAreSafe: a sufficient condition; the exact one is in SchedulerRuns.ExclusionExactly.
- Unwatched.ForsakenUntilRestart: orderly runs only, because in others a reused pid or a second monitor may end the job.
- Moves followed by further enqueues may bring equal scores: a move is one step on distinct scores, enqueue runs have no moves.
- Scores are exact reals: the rounding of float64 after many midpoints is not modelled.
- GetQueuePage: it slices a page twice, so its pages do not partition the queue.
- Lock tokens are fresh by assumption; the program makes them of a nanosecond time and the process id (internal/service/scheduler_service.go:273).
- Terminals: resizing and input but for the time of last use, JSON messages, messages dropped on a full send buffer, and broadcasts overtaking each other after the lock is released.
- MenuTree: the forest is the finite tree the pointers spell out; JSON encoding is not modelled.
- Controllers, routing, middleware, tokens, passwords, captcha, mail, role management, files, disk usage and system metrics: plumbing, foreign calls or single-branch facts.
