# Agent working memory: the model daemon, the coordination layer and three algorithms

This project models the concurrent and stateful parts of the agent-working-memory server and
proves what runs of them keep. It is checked with `dafny verify dfyconfig.toml`.

**The shared model daemon.** `Daemon` is the scheduler: two lanes, one executor, embeds in
chunks, cancels, dropped connections. Each stretch of code between two awaits is one function
on `Server` values, a run is a list of events in any order, and the inference handler is any
function of one text. `DaemonRuns` proves the guarantees over whole runs: every job in exactly
one place and answered once, chunked embeds equal to whole ones, no starvation, turns, background
work behind interactive work and in order, a queue that drains. `DaemonCancels` says exactly when
a cancelled job begins no further step, and `DaemonRequests` ties jobs and lanes to what was
submitted. `DaemonServer` is the object whose lanes are shifted, pushed and spliced, each method
proved equal to its step. `DaemonFrames` and `DaemonClient` are the frames of one connection and the
client's pending map; `DaemonLink` joins both ends over two first-in first-out channels, with all other clients doing
what they like, and proves that their timers agree. `DaemonResults` follows what a step returned or
threw to the answer and on to the promise, and shows that every promise settles. `Framing` is the
splitter of the byte stream. `Lifecycle` and `StartRace` are one process around the scheduler
(handshake, idle lease, closing) and any number of processes racing for one address and one token
file; `StartLock` is the lock file of the spawners. `Fallback` is the retry and backoff machine of a
client process.

**The coordination layer.** `Coordination` has the SQL tables as fields of a `Db` and each
handler as a function on it; `CoordinationServer` is the object whose handlers update the tables
statement by statement. `CoordinationAnswers` says for every request and any tables what is answered
and stored, row by row and worker by worker. `CoordinationRuns` proves what runs of requests keep
(ended tasks never change, retries are bounded, dependencies cannot deadlock, dispatch is in order),
`CoordinationBlocking` when completions wake everything blocked on them, `StaleCleanup` gives one
cleanup in closed form, `CoordinationEffects` says what requests do to locks, owners and circuits.
`Circuit`, `RateLimit` and `WriteMutex` are the circuit breaker, the sliding-window limiter and the
write mutex.

**Three algorithms.** `Conflicts` and `ConflictSort` mark conflicting memories and reorder them
newest first, with `ConflictMarks` saying value by value who is marked; `Toml`, `TomlLines`,
`TomlRoundTrip` and `TomlExact` parse and print the Codex configuration;
`Upsert` keeps the marked block in a user's instruction file. `Strings` has the JavaScript string
operations they use.

Sequence numbers of jobs and the history fields (`starts`, `answers`, `asked`, `hints`, `streak`
and the like) exist for the theorems; no branch reads them.

## What turned out differently from what one might expect

- The guard of n * n moves in `newestFirstAmongConflicts` is always enough
  (`ConflictSort.GuardIsEnough`): each result moves at most once in each stage of the loop.
- The daemon forgets a connection's cancelled ids when there are 10,000 of them. A cancelled embed
  that is still in its step may then begin another one. `DaemonCancels.NoFurtherStepExactly` has the
  exact condition: the cancels that arrive until that step ends have not made the daemon forget
  the id, or the step was the last, or the connection is lost. Cancels after that end do not matter,
  and neither does any number of cancels once the job is neither in a lane nor in a step
  (`DaemonCancels.GoneForGood`). `DaemonCancels.ForgottenCancelResumes` is a run from the start
  for every number of cancels, on both sides of the limit.
- A task reported blocked after its blocker was completed is never woken by a completion
  (`CoordinationBlocking.ReportedLateIsStuck` is such a run); that is the only way to be blocked on a
  completed task (`CoordinationBlocking.AwakeExactly`, and over whole runs `CompletionsWakeAll`).
- The comment in `stale.ts` says that a circuit failure is recorded for each orphaned task. The
  code records one for each stale worker that left at least one, and so does the model.
- A failure while a circuit is still stored open does not restart its delay, however late it comes
  (`Circuit.LateFailureUnseen`); only the fifth in a row or one in half-open does.
- A bare TOML value, such as a number, is printed in quotes when the file is rewritten, so for a TOML
  reader it has become a string (`TomlLines.BareValueIsQuoted`). Comments inside sections are dropped
  (`TomlLines.OtherLines`), and an array without its closing bracket loses its last character
  (`TomlLines.OpenArraysAreCut`).
- Top-level TOML keys are read into a section that is never printed, so a file that has them loses
  them when it is rewritten (`TomlExact.TopLevelKeysAreLost`). Exactly the normal documents survive.
- An instruction file with a BEGIN marker and no END gets a block appended by the first run, and
  loses all text from the stray BEGIN on in the second (`Upsert.StrayBeginLosesText`). A stray BEGIN
  above the section does the same to a forced run (`Upsert.ForceLosesText`). A stray END loses
  nothing, but hides every block behind it: runs without force append another one each time, or stop
  at a section inside the first (`Upsert.StrayEndAppendsAgain`).
- The start lock is not always exclusive (`StartLock.TwoSpawners`, a race the source's comment
  accepts). It is over a whole run exactly when each takeover meets nobody who holds the lock
  (`StartLock.ExclusiveExactly`). Nothing else rests on it: the exclusive listen decides the race.
- The comment in `takeLock` says that a half-written lock is judged by its age. The code takes it
  over at any age, because a process id that cannot be read counts as dead
  (`StartLock.HalfWrittenIsTakenOver`).

## Model

| member | source | states |
|---|---|---|
| Daemon.RunKeeps | src/core/model-daemon-server.ts:195-260 | every event of every run keeps the scheduler's invariant: each accepted job is in one place, jobs in the lanes still are the requests they came from with the right vectors so far, answers are right, only cancelled or disconnected jobs are dropped, background order, and not busy means both lanes empty |
| DaemonRuns.OnePlace | src/core/model-daemon-server.ts:195-260 | conservation on every run: a job is in exactly one of the lanes, running, answered or dropped, once; no job is answered twice |
| DaemonRuns.ChunkedEqualsWhole | src/core/model-daemon-server.ts:171-193 | for any chunk size, lane and interleaving, a finished embed answers with the vector of each of its texts in order |
| DaemonRuns.NoStarvation | src/core/model-daemon-server.ts:195-218 | a job with k jobs ahead of it in the interactive lane is begun, or dropped, by the time k + 1 more steps have begun, whatever arrives |
| DaemonRuns.WaitersGoFirst | src/core/model-daemon-server.ts:213-218 | whoever waits ahead of a job has its turn before that job's next step, or is dropped |
| DaemonRuns.ChunksTakeTurns | src/core/model-daemon-server.ts:205-217 | between two chunks of an unfinished interactive embed, everybody who waited in the interactive lane has begun a step or was dropped, whatever arrives |
| DaemonRequests.AcceptedAsSubmitted | src/core/model-daemon-server.ts:252-259 | over any run: the jobs accepted are the submits that arrived on live connections, in order, each with its own connection, id, lane and work |
| DaemonRequests.JoinsItsLane | src/core/model-daemon-server.ts:252-259 | while a step runs, a submit goes last into the lane it asked for |
| DaemonRequests.BeginsWhenIdle | src/core/model-daemon-server.ts:195-206 | with nothing to do a submit is begun at once, unless its id is still held as cancelled |
| DaemonRequests.BackgroundWaits | src/core/model-daemon-server.ts:200 | in any run, when a step of a job submitted as background begins, nothing submitted as interactive waits anywhere |
| DaemonRuns.BackgroundYields | src/core/model-daemon-server.ts:200 | a background step begins only when no interactive job waits |
| DaemonRuns.BackgroundInOrder | src/core/model-daemon-server.ts:200-218 | steps of two background jobs never interleave, and background jobs are answered in the order they arrived |
| DaemonCancels.CancelEmpties | src/core/model-daemon-server.ts:227-240 | a cancel frame leaves the id held, and no job of it in a lane exactly when each lane had at most one |
| DaemonCancels.HoldsTheFold | src/core/model-daemon-server.ts:231-234 | the ids held after any run are the fold over its cancels that forgets all at the limit, until the connection is lost |
| DaemonCancels.RequeuedExactly | src/core/model-daemon-server.ts:213-217 | an embed unfinished at the end of its step goes back to a lane exactly when the fold over the cancels since any state in that step does not hold its id |
| DaemonCancels.NoFurtherStepExactly | src/core/model-daemon-server.ts:199-217 | for a job in its step: no further step of it begins in any continuation exactly when the step was the last, or the connection was lost, or the id is still held when it ends |
| DaemonCancels.GoneForGood | src/core/model-daemon-server.ts:199-217 | once neither in a lane nor in a step, the job begins no further one, with any number of later cancels |
| DaemonCancels.CancelledStaysStopped | src/core/model-daemon-server.ts:202-215 | over a whole run no step of a cancelled job begins, if the id is still held at the end of the step it may be in |
| DaemonCancels.HeldWithinLimit | src/core/model-daemon-server.ts:231-234 | an id stays held while the ids held and the cancels that arrive are at most 10,000 together |
| DaemonCancels.ForgottenCancelResumes | src/core/model-daemon-server.ts:213-234 | from the start, with n ids cancelled during the first step of an embed of several chunks, its own first: the second step begins exactly when n is 0 or above 10,000 |
| DaemonRuns.DroppedNeverStarts | src/core/model-daemon-server.ts:202 | a dropped job begins no step afterwards |
| DaemonRuns.Drains | src/core/model-daemon-server.ts:195-223 | with no further arrivals the daemon falls idle within a computed number of steps, whether they return or throw |
| DaemonResults.AnswersAreSettlements | src/core/model-daemon-server.ts:171-211 | over any run the errors answered are exactly those steps threw, and the values answered exactly those steps of whole jobs returned, job by job |
| DaemonResults.IdleMeansAnswered | src/core/model-daemon-server.ts:195-223 | when the daemon is not busy, every job neither cancelled nor disconnected has exactly one answer: the vectors of its texts, or what its own step returned or threw |
| DaemonServer.ModelDaemon.Pump | src/core/model-daemon-server.ts:195-223 | the loop over the shifted lanes is the scheduler's step to its next await |
| DaemonServer.ModelDaemon.OnCancel | src/core/model-daemon-server.ts:227-240 | the cancel branch, on the object's lanes and sets |
| DaemonServer.ModelDaemon.OnRequest | src/core/model-daemon-server.ts:225-260 | a request frame moves the object's whole state as the function does and keeps the invariant |
| DaemonServer.ModelDaemon.EndOfStep | src/core/model-daemon-server.ts:171-217 | what follows the awaited handler: answer, error answer, requeue or stop |
| DaemonServer.ModelDaemon.Handle | src/core/model-daemon-server.ts:195-260 | any event: the object moves exactly as the run of module Daemon, so every theorem about runs is about it |
| DaemonFrames.PhaseReadsTrace | src/core/model-daemon-client.ts:295-312 | the phase computed from the frames of an id is broken exactly when they leave the language of the protocol |
| DaemonFrames.NextLine | src/core/model-daemon-server.ts:199-206 | skipping dead jobs and beginning the next keeps every id's frames in the language and tied to where its job is |
| DaemonFrames.SettleLine | src/core/model-daemon-server.ts:205-218 | so does the end of a step |
| DaemonLink.ClientActs | src/core/model-daemon-client.ts:128-164 | a request is pending and on its way; each timer settles its own promise only |
| DaemonLink.ChannelsDeliver | src/core/model-daemon-client.ts:128-136 | the daemon takes the oldest request in flight, the client the oldest frame |
| DaemonLink.TimersAgree | src/core/model-daemon-client.ts:144-164 | in every reachable state of both ends, replaying the frames in flight leaves the run timer exactly when the daemon runs a step of the job, the queue timer exactly when the request or its job still waits |
| DaemonLink.RunTimerTimesTheStep | src/core/model-daemon-client.ts:154-164 | a run timer with nothing in flight for it times a running step, never the queue |
| DaemonLink.FrameLanguage | src/core/model-daemon-server.ts:171-222 | the frames written for a request are a prefix of (started requeued)* started final, or the one report of a stats request |
| DaemonLink.NothingLost | src/core/model-daemon-client.ts:128-136 | with empty channels and an idle daemon no promise is pending: each was settled |
| DaemonResults.EveryPromiseSettles | src/core/model-daemon-client.ts:128-136 | from every reachable state with the connection up: after the requests in flight have arrived, as many steps as the daemon's load have ended in any way, and the frames have been taken, every promise is settled |
| DaemonResults.OutcomeIsTheSteps | src/core/model-daemon-client.ts:308-311 | end to end: a value or remote error a promise settles with is what a step of its own job, with its own work, returned or threw |
| DaemonLink.SettledOnce | src/core/model-daemon-client.ts:278-312 | every promise is pending or settled, not both, and a settled one keeps its outcome over any further run |
| DaemonLink.EmbedThroughDaemon | src/core/model-daemon-client.ts:128-136 | end to end: vectors a client receives are the handler's vectors of its own texts in order |
| DaemonLink.StepsKeep | src/core/model-daemon-client.ts:128-164 | the joint invariant of client, daemon and both channels over every interleaving |
| DaemonClient.FrameSettles | src/core/model-daemon-client.ts:295-312 | which frames flip a timer, which settle a promise, and with what |
| DaemonClient.QueueTimeoutSettles | src/core/model-daemon-client.ts:144-152 | a queue timeout rejects its own promise alone and writes one cancel |
| DaemonClient.ConnectionDropSettles | src/core/model-daemon-client.ts:154-164 | a run timeout rejects its own promise and drops the connection; a lost connection rejects all that is left |
| DaemonClient.RequestIsIssued | src/core/model-daemon-client.ts:128-142 | a request gets a fresh id, the queue timer, and its frame |
| DaemonClient.ModelDaemonClient.OnFrame | src/core/model-daemon-client.ts:295-312 | a frame flips the one timer or settles the promise; an unknown id changes nothing |
| DaemonClient.ModelDaemonClient.QueueTimerFires | src/core/model-daemon-client.ts:144-152 | that request fails alone, and the cancel frame is written with a fresh id |
| DaemonClient.ModelDaemonClient.SocketCloses | src/core/model-daemon-client.ts:283-290 | the loop rejects each pending request and empties the map |
| Framing.FrameReader.Push | src/core/model-daemon.ts:214-228 | the loop with its list of parts is the splitter a character at a time; false exactly for a bad line or a tail over the limit; size is the length of the joined parts |
| Framing.FeedAll | src/core/model-daemon-server.ts:300 | chunk after chunk on the object is the fold over the chunks |
| Framing.FramesComeBack | src/core/model-daemon.ts:209-233 | encoded frames and part of another, cut into any chunks that are not refused, come out as exactly those frames in order, with exactly the part in the buffer |
| Framing.RefusedOnlyForTails | src/core/model-daemon.ts:226-227 | chunks of a well-formed stream are accepted exactly when every unterminated tail at a cut is within the limit |
| Framing.CutsDoNotMatter | src/core/model-daemon.ts:203-208 | two ways to cut one text, neither refused, end in the same frames and the same tail |
| Lifecycle.LeaseCutsNothing | src/core/model-daemon-server.ts:157-168 | the idle lease closes only a daemon without clients, without a step running or queued, that answered or was excused from every job it accepted |
| Lifecycle.LeaseExactly | src/core/model-daemon-server.ts:157-168 | when the lease runs out the daemon closes exactly when nothing runs or waits, and otherwise re-arms with nothing else changed |
| Lifecycle.RequestsReachTheScheduler | src/core/model-daemon-server.ts:242-259 | a client's request for work is accepted by the process's scheduler, and the end of a step is taken by it |
| Lifecycle.GoesAway | src/core/model-daemon-server.ts:300-308 | what is left of a connection that closed, and when its closing arms the lease |
| Lifecycle.HandshakeExactly | src/core/model-daemon-server.ts:270-299 | the exact condition of every answer before ready: each refusal, the challenge, the welcome, and what they change |
| Lifecycle.DaemonProcess.OnHandshakeFrame | src/core/model-daemon-server.ts:270-299 | the handshake by stage, with every reason to refuse, on the object |
| Lifecycle.DaemonProcess.CloseAll | src/core/model-daemon-server.ts:341-351 | closing destroys every connection and disarms the lease, once |
| Lifecycle.DaemonProcess.OnIdle | src/core/model-daemon-server.ts:159-166 | the timer re-arms while work is left, and closes otherwise |
| StartRace.StartsExactly | src/core/model-daemon-server.ts:309-330 | a start in full: with the address free the process serves with its token in the file, with the address taken it has lost and changed nothing |
| StartRace.WriteFailureFrees | src/core/model-daemon-server.ts:314-325 | a process that cannot write its token gives the address back and leaves the file alone |
| StartRace.LeavesWithItsToken | src/core/model-daemon-server.ts:331-351 | a closing process leaves after its last connection, removing the token only if it is its own |
| StartRace.ServingTakesDeeds | src/core/model-daemon-server.ts:242-308 | requests, ends of steps and lost connections reach the serving process and no other |
| StartRace.ServingCloses | src/core/model-daemon-server.ts:157-168 | its timer and a call to close it act on it, and free the address once it is closing |
| StartRace.OneListener | src/core/model-daemon-server.ts:309-312 | over any run of any number of processes at most one listens |
| StartRace.LoserNeverWrites | src/core/model-daemon-server.ts:309-325 | a process that lost the address, or could not write, is never the owner of the token file |
| StartRace.TokenIsTheListeners | src/core/model-daemon-server.ts:314-325 | whoever listens with its token ready has its token in the file, even while a predecessor is still closing |
| StartRace.ClosingNeverGrows | src/core/model-daemon-server.ts:272-296 | once a daemon is closing, its authenticated clients never grow again |
| StartRace.OnlyTheToken | src/core/model-daemon-server.ts:289-296 | a connection is authenticated only by the daemon's own token, after a challenge, while the file holds it |
| StartRace.ClientGetsIn | src/core/model-daemon-client.ts:228-271 | whatever happens in between, as long as the daemon serves, a client that reads the file on the challenge finds its proof verifies and is let in |
| StartRace.LeaseOfTheLiving | src/core/model-daemon-server.ts:157-168 | the idle timer is armed exactly while the daemon serves and has no client |
| StartLock.ExclusiveExactly | src/core/model-daemon-client.ts:314-341 | over any run of system calls of any processes, the lock excludes throughout exactly when each takeover meets nobody who holds it |
| StartLock.TakesWhenFree | src/core/model-daemon-client.ts:314-334 | with nobody interfering, `takeLock` gets the lock exactly when there is no file, or it is half-written, of a dead process, or too old |
| StartLock.GivesUpAfterTwo | src/core/model-daemon-client.ts:316-333 | there are two attempts and no more |
| StartLock.GivesBack | src/core/model-daemon-client.ts:336-341 | a release unlinks the file exactly when it is written and the process's own |
| StartLock.DeadOwnerIsReplaced | src/core/model-daemon-client.ts:316-331 | what the retry is for: the next process takes over the lock of a crashed one and holds it alone |
| StartLock.TwoSpawners | src/core/model-daemon-client.ts:324-331 | from the unused lock: a spawner crashes, two judge its file stale, and both end up holding the lock |
| StartLock.HalfWrittenIsTakenOver | src/core/model-daemon-client.ts:318-327 | a lock created and not yet written is taken over at any age |
| Fallback.BackoffIsExact | src/core/ml-worker.ts:310-325 | in fallback exactly when the retry delay exceeds 60 s; the k-th failure since the last connect sets min(60,000 * 2^(k-1), 900,000) ms |
| Fallback.DispatchIsProper | src/core/ml-worker.ts:344-369 | a dispatch makes at most two attempts, the second only after a first disconnect, and runs here exactly once if neither brought a result or a remote error, and not at all otherwise |
| Fallback.GoesToTheDaemon | src/core/ml-worker.ts:344-354 | over any run a new request goes to the daemon exactly when that is enabled and was not last found down, and otherwise runs here once; and exactly when it starts a probe |
| Fallback.AttemptEnds | src/core/ml-worker.ts:352-368 | how each end of an attempt goes on: tried again, over, or run here |
| Fallback.ProbeTurns | src/core/ml-worker.ts:327-342 | in any run a probe is answered once and ends once, and only its end lets the next one start |
| Fallback.ProbeWaits | src/core/ml-worker.ts:327-342 | in every reachable state at most one probe is under way, exactly while the flag is set; another starts only in fallback and when the whole delay since the last failure has passed |
| Fallback.BusyIsNotDown | src/core/ml-worker.ts:310-366 | over any run: in fallback exactly while the last word about the daemon is that it is down, the delay given by how many such words came in a row; answers, remote errors, queue timeouts and first disconnects are no such word |
| Fallback.DaemonDispatch.Resume | src/core/ml-worker.ts:352-368 | one turn of the retry loop on the module's variables |
| Circuit.CountsFailures | src/coordination/circuit-breaker.ts:22-52 | the stored count is the failures since the last success; closed, below five and no opening time are the same |
| Circuit.RefusedExactly | src/coordination/circuit-breaker.ts:58-83 | refused exactly with five failures or more since the last success and at most 30 s since the opening, whoever looked in between |
| Circuit.FailureReopens | src/coordination/circuit-breaker.ts:28-36 | the fifth failure in a row, or one in half-open, opens afresh and refuses until 30 s after its second; one while stored open keeps the opening time |
| Circuit.LateFailureUnseen | src/coordination/circuit-breaker.ts:32-36 | a failure a minute after the opening that nobody looked at leaves the worker available |
| Circuit.CircuitTable.GetState | src/coordination/circuit-breaker.ts:58-78 | the read that writes half_open, on the table; other rows stay |
| RateLimit.BucketIsTheWindow | src/coordination/routes.ts:142-147 | after a request the bucket of its key is the key's whole history of the last 60 s, across sweeps and other keys |
| RateLimit.WindowLimit | src/coordination/routes.ts:149-151 | at most 300 requests of a key are accepted in any half-open window of 60 s |
| RateLimit.AcceptedExactly | src/coordination/routes.ts:142-151 | a request is accepted exactly when, itself included, at most 300 of its key arrived in the last 60 s |
| RateLimit.RateLimiter.OnSweep | src/coordination/routes.ts:124-131 | the cleanup loop prunes every bucket and deletes the empty ones |
| RateLimit.RateLimiter.OnRequest | src/coordination/routes.ts:142-151 | the hook records the request and answers 429 exactly above the limit |
| WriteMutex.OneWriterInOrder | src/coordination/write-mutex.ts:19-50 | at most one holder, grants in the order of asking, waiting only while somebody holds, pending is acquires minus grants |
| WriteMutex.HandOff | src/coordination/write-mutex.ts:26-34 | a release with somebody waiting passes the lock on without opening it |
| WriteMutex.Mutex.Release | src/coordination/write-mutex.ts:26-34 | the release on the object's queue keeps the mutex exclusive |
| CoordinationAnswers.OwnTaskFirst | src/coordination/routes.ts:691-695 | a worker that has a task under way is told of its newest, and nothing changes |
| CoordinationAnswers.TwinsTaskMoves | src/coordination/routes.ts:697-719 | without one, the newest task of a live worker of the same name becomes its own, and it is at work on it |
| CoordinationAnswers.OpenTaskNext | src/coordination/routes.ts:721-768 | otherwise: nothing to take, refused by the circuit, unknown worker, or the task of its own, highest priority and oldest, now assigned to it |
| CoordinationAnswers.PollStaysHome | src/coordination/routes.ts:721-738 | a worker with a workspace is newly given by polling only tasks of that workspace, of none, or reserved for it |
| CoordinationAnswers.ChecksIn | src/coordination/routes.ts:162-200 | which worker a check-in refreshes and how, and when it registers a new one |
| CoordinationAnswers.NextPutsToWork | src/coordination/routes.ts:479-482 | after a next that gives a task the worker is at work |
| CoordinationAnswers.AssignsAsAsked | src/coordination/routes.ts:512-566 | whom an assignment is for, when it is refused, and the whole row it stores |
| CoordinationAnswers.ClaimsPending | src/coordination/routes.ts:775-795 | a claim takes exactly a pending task, for a worker there is |
| CoordinationAnswers.UpdateAnswers | src/coordination/routes.ts:798-829 | an update is done exactly for the eleven transitions, with proof for a completion; refused otherwise with nothing changed |
| CoordinationAnswers.UpdateStores | src/coordination/routes.ts:830-903 | a done update stores its status and result, frees the owner of an ended task, wakes what a completed one blocked, and changes nothing else |
| CoordinationAnswers.ReassignsAsAsked | src/coordination/routes.ts:956-1017 | whom a reassignment moves the task to, when it is refused, and what becomes of both workers and the locks |
| CoordinationAnswers.FailsTheTask | src/coordination/stale.ts:40-85 | the whole row after a failure, within the retry budget and after it |
| CoordinationAnswers.KillsTheWorker | src/coordination/routes.ts:1634-1674 | a killed worker's tasks under way fail, its locks go, it is dead, and nothing else changes |
| CoordinationAnswers.SignsOff | src/coordination/routes.ts:282-318 | what a check-out and a pulse store |
| CoordinationAnswers.LocksAndFrees | src/coordination/routes.ts:1087-1131 | the exact answers and effects of asking for a lock and giving it back |
| CoordinationAnswers.CleansTheOverdue | src/coordination/stale.ts:21-132 | which workers a cleanup finds overdue, and exactly the rows, workers and locks it changes |
| CoordinationRuns.RunKeeps | src/coordination/routes.ts:406-1067 | every request keeps every row lawful and only moves it on |
| CoordinationRuns.TerminalForever | src/coordination/routes.ts:798-857 | completed and failed are absorbing over any run: the whole row stays |
| CoordinationRuns.RetriesAreBounded | src/coordination/stale.ts:40-85 | at most three retries; the description is the original followed by hint blocks numbered 1 to the attempt count; pending means no owner; completed means proof of work |
| CoordinationRuns.HintsAddUp | src/coordination/stale.ts:54-65 | later hints follow earlier ones, and the original text stays |
| CoordinationRuns.BudgetDecides | src/coordination/routes.ts:1041-1067 | failing a task retries it while the budget lasts and ends it for good after that |
| StaleCleanup.AttemptsCountRetries | src/coordination/stale.ts:40-85 | over any run the attempt count grows by exactly the number of requests that retried the task |
| CoordinationBlocking.AwakeExactly | src/coordination/routes.ts:879-903 | where no task is blocked on a completed one, the next request makes one so exactly when it reports it blocked after the completion |
| CoordinationBlocking.CompletionsWakeAll | src/coordination/routes.ts:879-903 | over any run: in all of its states no blocked task waits for a completed one, exactly when no task was reported blocked after its blocker was completed |
| CoordinationBlocking.ReportedLateIsStuck | src/coordination/routes.ts:798-903 | a run from the empty tables that leaves a task blocked on a completed one |
| CoordinationRuns.BlockersAreOlder | src/coordination/schema.ts:46-47 | a blocker was created before what it blocks, so blocking is well-founded |
| CoordinationRuns.NoDeadlock | src/coordination/routes.ts:434-474 | an unscoped, available worker that goes away empty while something is pending: then some pending task waits for one that is assigned, in progress, blocked or failed |
| CoordinationRuns.WorkIsHandedOut | src/coordination/routes.ts:434-474 | with something pending and all else completed the worker is handed a task |
| CoordinationRuns.EmptyHanded | src/coordination/routes.ts:721-768 | exactly when dispatch answers with nothing |
| CoordinationRuns.HandedOutInOrder | src/coordination/routes.ts:440-452 | highest priority, then oldest: no open task the worker sees comes before the one handed out |
| CoordinationRuns.BlockerStaysDone | src/coordination/routes.ts:436-452 | the blocker of a task handed out is completed then and ever after |
| CoordinationEffects.LockChangesHands | src/coordination/routes.ts:1080-1133 | a held lock is lost only by its holder's own release, checkout, kill, reassignment or stale cleanup, and gained only by asking |
| CoordinationEffects.AssignedAlone | src/coordination/routes.ts:541-585 | a task assigned at creation is its owner's only task under way; nothing else in the table changes |
| CoordinationEffects.CircuitIsItsHistory | src/coordination/routes.ts:867-871 | after any run the stored circuit of a worker is the circuit of its history of successes, failures and looks |
| CoordinationEffects.RefusedByHistory | src/coordination/routes.ts:454-457 | dispatch refuses a task it came to exactly when the worker's history has five failures since the last success and an opening at most 30 s ago |
| StaleCleanup.CleanupIsExact | src/coordination/stale.ts:88-132 | the cleanup in closed form: tasks, locks, workers, one circuit failure for each stale worker with a task, the count, and all else unchanged |
| StaleCleanup.NothingStaleIsLeft | src/coordination/stale.ts:88-132 | afterwards no stale worker is alive, owns a task under way or holds a lock |
| CoordinationServer.Coordinator.OnPollFor | src/coordination/routes.ts:691-768 | dispatch on the tables: own task, namesake's task, reserved, open, circuit, claim |
| CoordinationServer.Coordinator.OnAssign | src/coordination/routes.ts:512-585 | creation with its refusals, on the tables |
| CoordinationServer.Coordinator.OnUpdate | src/coordination/routes.ts:804-906 | the update with its gates, the worker, the circuit and the auto-unblock loop |
| CoordinationServer.Coordinator.OnReassign | src/coordination/routes.ts:956-1017 | the old owner is released with its locks, the task given or returned to pending |
| CoordinationServer.Coordinator.OnKill | src/coordination/routes.ts:1634-1674 | the worker's active tasks fail, its locks go, it is dead |
| CoordinationServer.Coordinator.Handle | src/coordination/routes.ts:302-1674 | any request: tables and response are those of the function on the tables, so every theorem about runs is about this object |
| CoordinationServer.Coordinator.OnCleanupStale | src/coordination/stale.ts:88-132 | the nested loops with their counter are the function the closed form is about |
| Conflicts.DisagreementSymmetric | src/core/conflicts.ts:171-190 | disagreement is symmetric |
| ConflictMarks.DisagreesExactly | src/core/conflicts.ts:171-199 | two memories disagree on the first kind, in the source's order, on which neither repeats all values of the other, dates by month where a side has only months; and on nothing exactly when there is none |
| ConflictMarks.MarksExactly | src/core/conflicts.ts:213-233 | a result has one mark, in input order, for exactly those results it conflicts with: both current, neither the other's stated successor, related and in disagreement; with the kind, and newer exactly when it was written later |
| Conflicts.DetectConflicts | src/core/conflicts.ts:213-233 | the nested loops give each result these marks |
| Conflicts.NewestFirst | src/core/conflicts.ts:250-269 | the splices keep results and marks aligned and the results a permutation |
| Conflicts.NoneFollowsOlder | src/core/conflicts.ts:250-269 | with detected marks, no result ends up behind one it is marked newer than, guard and all |
| Conflicts.ReturnedInOrder | src/core/conflicts.ts:250-269 | the same about the returned results and their own marks |
| Conflicts.NewerVersionFirst | src/core/conflicts.ts:213-269 | of two conflicting versions the one written later comes first |
| Conflicts.UnmarkedKeepPlace | src/core/conflicts.ts:250-269 | a result marked newer than nothing overtakes nobody |
| ConflictSort.MoveClimbs | src/core/conflicts.ts:253-267 | each move strictly increases the sequence of creation times lexicographically, so the loop would end without its guard |
| ConflictSort.GuardIsEnough | src/core/conflicts.ts:253 | n * n moves are always enough |
| ConflictSort.SortBag | src/core/conflicts.ts:259-260 | the moves permute |
| Toml.ParseTOML | src/adapters/codex.ts:30-77 | the loop over the lines is the fold the round trip is about |
| Toml.SerializeTOML | src/adapters/codex.ts:91-117 | the nested loops print the lines the round trip is about |
| TomlLines.PairLineSets | src/adapters/codex.ts:54-74 | a pair line, whoever wrote it, sets its one key in the current section and nothing else |
| TomlLines.HeaderOpens | src/adapters/codex.ts:38-46 | a header opens its section, adding it only when it is new |
| TomlLines.OtherLines | src/adapters/codex.ts:48-59 | other lines are kept before the first section and dropped inside one |
| TomlLines.ScalarsAreText | src/adapters/codex.ts:87-88 | what starts with no bracket is text, as written but for one quote at each end |
| TomlLines.ArraysAreRead | src/adapters/codex.ts:81-86 | an array ends at its last bracket, and its items are the pieces between its commas |
| TomlLines.OpenArraysAreCut | src/adapters/codex.ts:82 | without a closing bracket its last character is lost |
| TomlLines.ItemsInOrder | src/adapters/codex.ts:83-85 | its items are the pieces between commas in order, trimmed, unquoted, the empty ones left out |
| TomlLines.ValueTextStays | src/adapters/codex.ts:79-117 | a value keeps its text in a rewritten file exactly when the printer would have written it so |
| TomlLines.BareValueIsQuoted | src/adapters/codex.ts:79-117 | a bare value comes back in quotes |
| TomlLines.RewritingSettles | src/adapters/codex.ts:79-117 | after one rewriting values keep their text |
| TomlRoundTrip.ValueComesBack | src/adapters/codex.ts:79-89 | a value comes back exactly when no array item is empty or has a comma; a string with any quotes does |
| TomlRoundTrip.NormalComesBack | src/adapters/codex.ts:30-117 | a normal document, printed and parsed, is itself |
| TomlExact.RoundTripExactly | src/adapters/codex.ts:30-117 | for all documents: printing then parsing gives the document exactly when it is normal |
| TomlExact.TopLevelKeysAreLost | src/adapters/codex.ts:64-68 | a document with top-level keys never comes back |
| Upsert.MarkedFileIsFramed | src/adapters/common.ts:357-369 | text before the first BEGIN and after the first END is kept to the letter, and a second run changes nothing |
| Upsert.AppendThenStable | src/adapters/common.ts:348-379 | a new file, or one without markers and section, gets the block, and a second run is a no-op |
| Upsert.AppendExactly | src/adapters/common.ts:359-379 | an appended block is found again exactly when the file had neither marker |
| Upsert.StrayBeginLosesText | src/adapters/common.ts:359-379 | with a BEGIN and no END the second run replaces everything from it on |
| Upsert.StrayEndAppendsAgain | src/adapters/common.ts:357-415 | with an END that hides the block, the run after the append in closed form: another block is appended, or the section in the first block is taken for an unmarked one and left alone |
| Upsert.StrayEndKeepsText | src/adapters/common.ts:357-415 | over any list of runs without force on such a file, the user's text up to trailing white space stays in front to the letter |
| Upsert.LegacyIsLeftAlone | src/adapters/common.ts:396-415 | over any list of runs without force an unmarked section leaves the file as it is, with one backup for each run that found it out of date and could write one |
| Upsert.LegacyStep | src/adapters/common.ts:391-415 | one such run: up to date, backed up, or refused because no backup can be written |
| Upsert.SectionIsFirst | src/adapters/common.ts:372-373 | the section starts at the first line that begins with its heading |
| Upsert.FoundExactly | src/adapters/common.ts:357-369 | a block between any two texts, the first not itself marked, is the one the markers find exactly when no marker stands in the first |
| Upsert.ForceExactly | src/adapters/common.ts:417-424 | with force the section becomes a marked block between the text above and the text from the next heading on; it is found again, and then stays, exactly when no marker stands above the heading |
| Upsert.ForceKeepsBelow | src/adapters/common.ts:381-424 | with force, everything from the first other heading below the section's first line is kept to the letter |
| Upsert.ForceLosesText | src/adapters/common.ts:357-424 | with a BEGIN and no END above the heading the run after the forced one replaces everything from it on |
| Upsert.InstructionFile.UpsertSection | src/adapters/common.ts:339-425 | the file is overwritten, or not, branch by branch as the function says |

## Left out

- Model loading, inference, sockets, pipes, files, process ids, the launcher process, the retried rename on Windows and the removal of a stale socket file: listening is exclusive, a rename replaces the token file in one step, and comparing and unlinking the token is one step, although between two processes it is two system calls.
- The proofs of the handshake are the token they were made with (nonces and HMAC are not modelled); tokens of different processes differ.
- JSON: a frame is encoded and parsed by any pair of functions where an encoding has no newline and parses back. Frame ids are natural numbers; frames without a numeric id are ignored by the source and not modelled.
- The daemon's handlers: an embed is any function of one text, so a handler whose vectors depend on the batch is not captured; other operations, and unknown ones that throw, settle with any value or error.
- The watchdog of a wedged step is a call of `close` at any time; which step is wedged is not modelled. Served counts and memory in the statistics are not modelled.
- DaemonLink.TimersAgree: one connection of one client from its authentication on; when it is lost the client's promises are rejected, and the next connection starts afresh.
- Framing.FrameReader: the limit is fixed while chunks are fed; the change of limit after authentication is not modelled.
- The dead worker_threads path of `ml-worker.ts`, the counters and log lines, and the fingerprint change of a rebuilt daemon.
- Fallback.DaemonDispatch: the awaits of a dispatch are events of its caller's making; the in-process run itself is a count.
- Event rows, the mailbox, channel pushes, commands, session tokens, metrics, read-only routes, request schemas, the coalescing of pulses, and shutting down the whole hive. Deleting dead workers is not modelled: a worker with tasks, locks or a circuit row cannot be deleted because of its foreign keys.
- The MCP tools, which update assignments without the transition table: ended tasks stand still under the HTTP routes and the cleanup only.
- An empty workspace string, which the routes treat partly as none. Workspaces are absent or not empty.
- CoordinationRuns.RetriesAreBounded: the words of the hints and the classification of failures are any functions, and what counts as proof of work is any predicate on the result text.
- Where SQLite may return rows of equal priority and creation time in any order, the model takes the one created first; the same for workers last seen in the same second. Of several namesakes with a task the source takes whichever the database returns first, the model the lowest id.
- GET /assignment also finds the worker by name; the model's poll takes its id.
- StartLock.ExclusiveExactly: process ids are not used again, and writing the lock file does not fail.
- RateLimit.WindowLimit: the clock does not go back; requests to /health and requests without a key are exempt in the source and not part of the history.
- WriteMutex.OneWriterInOrder: a holder releases once. Which requests take the mutex is not modelled.
- The extraction of values from text, cosine and word overlap: value sets, relatedness and staleness are inputs. Creation times are whole numbers or absent.
- Conflicts.NoneFollowsOlder: an id names one memory, so results with the same id have the same creation time.
- Keys that are whole numbers, which a JavaScript object lists first, and the key `__proto__`.
- The texts of the adapters, hooks, the vault, migrations, the command line, storage, activation, the write pipeline, redaction and salience, and small helpers that would only add easy members.
