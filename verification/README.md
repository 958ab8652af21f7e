# NekoDL core: a verified model

NekoDL is a download manager whose core is written in Go. This project models the parts of that core whose correctness
does not show in any one function, and proves what they promise over all inputs, runs and interleavings.
`dafny verify dfyconfig.toml` checks everything.

| files | what they model |
|---|---|
| `Runs` | runs of any machine as lists of actions, and how they are joined |
| `Segments`, `ContentRange` | how a file of known size is cut into byte ranges, and how its size is read from a header |
| `HttpEngine` | the segmented HTTP download as a machine: control calls, one runner, one goroutine for each segment, the file, the sidecar |
| `HttpEngineSafety`, `HttpEngineTheorems`, `HttpEngineLifecycle`, `HttpEngineLedger`, `HttpEngineEffort`, `HttpEngineTermination`, `HttpEngineCompletion`, `HttpEngineConditions`, `HttpEnginePersistence`, `HttpEngineResume` | its invariant, and what follows: delivery, runs that complete, exact conditions, resume safety, what Pause and Cancel promise, byte accounting, bounded requests, termination, what is tried before a failure, and what is not asked for again |
| `HttpFetch` | `New`, `fetchSegment` and its retry loop as methods of a Task object whose fields other goroutines change between any two critical sections |
| `Paths`, `FileNames` | path cleaning, the server-supplied file name, and where a renamed download ends up |
| `SchedulerOrder`, `SchedulerSpec`, `Scheduler` | the priority scheduler: the order, the settled schedule stated by rank, and the object that computes it by collecting, sorting and calling |
| `TorrentEngine`, `TorrentTask` | the torrent task's control calls, download watcher and kill switch, as a machine and as methods over shared fields |
| `EngineContracts` | the HTTP and torrent engines meet what the scheduler assumes of a task |
| `WebSocketFrames`, `WebSocketIO`, `WebSocketServer` | the frame format of RFC 6455, the reader and writer that implement it, and the two loops that share a connection |
| `BigEndian`, `ByteCounter`, `MegaBlocks`, `MegaKey`, `MegaCtr`, `MegaCbc`, `MegaDownload` | MEGA's key arithmetic, and the two cipher modes over an abstract block function |

## How concurrency is modelled

A protocol is a machine: a function from a state and an action to the next state, or None when the action cannot happen. An action
is one critical section or one externally visible effect (a request, a read together with the write of the bytes read, a
counter update, a sidecar write). Whatever the network, the disk or the Go scheduler decides is carried by the action, so
a theorem about every action list is a theorem about every schedule and every failure pattern.

The classes `HttpFetch.Task` and `TorrentTask.Task` run the code's own control flow over mutable fields. A method
`Others` stands for the other threads: its contract allows any steps of theirs, callers see nothing but the contract, and
it is called before every critical section. The ghost `history` lists every step taken, and `Valid` says that the fields are
exactly what that run of the machine gives; so every method refines the machine and every theorem about runs holds of the
object (`HttpFetch.Task.CompleteHasPayload` is one). A thread's own knowledge survives by lemmas about what the others leave
alone. In `Scheduler` the tasks' own goroutines run in `Background`, before every status the pass looks at; `quiet` marks
a world in which they do nothing.

## Assumptions

- Servers send bytes of one fixed payload at the offsets asked for. Unless `shortEof` is set, a body ends cleanly only
  after the whole range (sections 14.2 and 15.3.7 of RFC 9110). The code checks neither Content-Range nor the number of
  bytes; `FullCounterProvesDelivery` gives the check that would suffice.
- Unless `orphans` is set, a Remove does not delete the file when it has failed to delete the sidecar. The code ignores
  both errors.
- Control calls on one HTTP task do not overlap (`callers == 1`), which the scheduler's lock gives for calls through it
  but not for the add handler's own Resume (core/internal/api/addtask.go:85).
- `DeliversExactlyWhen` shows that delivery needs these three and no more, and `CancelIsFinalOnlyWhenSerialised` that
  cancellation needs the last. With more callers the machine still has one runner slot; both counter-runs use one runner.
- A server that is asked for a range starting past its end (section 14.1.1 of RFC 9110) does not answer 206.

## Where the code and its comments differ

- The comment on `Pause` of the scheduler (core/internal/scheduler/scheduler.go:143-144) says that a slot is freed. With a
  positive cap the pass that follows resumes the task again: see `PauseSticks` and `PauseFreesNoSlot`.
- The key length error says 32 bytes; keys of 29 to 31 bytes are accepted too, because they are zero-padded first
  (`KeyCanBeRebuilt`).
- The comment on the kill switch says that a task it stops will not be resumed. That holds of reschedule passes, but a
  trip between the two critical sections of a Resume is overwritten (`TripInsideResumeIsLost`), and a Resume after a
  trip does not start a new kill switch (`WatchedUnlessTripped`). `TripHoldsUnlessResuming` gives the exact condition.
- A torrent whose last piece arrives while it is paused stays paused, and a later Resume makes it Active with nothing
  left that would mark it Complete (`FinishedWhilePaused`, `CompletesUnlessFinished`).

## Model

| member | source | states |
|---|---|---|
| Segments.BuildSegments | core/internal/httpengine/segment.go:116-144 | the loop yields the even split for known sizes with range support, and otherwise the single unbounded segment |
| Segments.PiecesSplitEvenly | core/internal/httpengine/segment.go:130-142 | the pieces are non-empty, contiguous from 0 to total-1, of equal length but for the last, which takes the remainder, and each at least 1 MiB when there is more than one |
| Segments.SplitIsUnique | core/internal/httpengine/segment.go:113-144 | the even-split contract leaves only one list, so no other loop can meet it |
| Segments.CountIsLargest | core/internal/httpengine/segment.go:120-128 | the number of connections is the largest that is no more than maxConn and, beyond one, leaves at least 1 MiB to each |
| Segments.EveryByteHasOneOwner | core/internal/httpengine/segment.go:113-144 | every byte of the file lies in exactly one segment |
| ContentRange.TotalOfPrinted | core/internal/httpengine/segment.go:101-111 | a printed size is read back whatever stands before it, exactly as long as it fits a signed 64-bit integer; otherwise the size is unknown |
| ContentRange.TotalOfOther | core/internal/httpengine/segment.go:101-111 | anything but digits after one optional sign leaves the size unknown, the asterisk form included |
| ContentRange.TotalOfSigned | core/internal/httpengine/segment.go:106-110 | one sign before the digits is accepted, and a minus is kept: a header can state a negative size |
| ContentRange.TotalOfTwoDigits | core/internal/httpengine/segment.go:106-110 | the first digit weighs most |
| ContentRange.TotalWithoutSlash | core/internal/httpengine/segment.go:102-105 | a header without a slash leaves the size unknown |
| HttpEngineSafety.HonestWrite | core/internal/httpengine/task.go:416-419 | writing payload bytes at their offset puts them in place, removes no payload byte already in place and leaves the stale tail alone |
| HttpEngineSafety.PublishMoves | core/internal/httpengine/task.go:424-427 | publishing an offset keeps every segment's claim true, and the snapshot taken with it is sound |
| HttpEngineSafety.WorkerStepKeeps | core/internal/httpengine/task.go:331-442 | every step of a segment goroutine keeps the invariant of the whole task |
| HttpEngineSafety.JoinedIsDelivered | core/internal/httpengine/task.go:325-328 | when all goroutines of a mirror have returned without an error, every segment has reached its limit |
| HttpEngineSafety.RunnerStepKeeps | core/internal/httpengine/task.go:221-329 | every step of the runner, through probing, planning, mirrors and finalizing, keeps the invariant |
| HttpEngineSafety.CallerStepKeeps | core/internal/httpengine/task.go:154-219 | every critical section of Resume, Pause, Cancel and Remove, and each of the two deletions of a Remove, succeeding or failing, keeps the invariant |
| HttpEngineSafety.RestartKeeps | core/internal/httpengine/task.go:107-123 | a new Task loaded from any snapshot ever saved satisfies the invariant, whatever was running before |
| HttpEngineSafety.RunKeeps | core/internal/httpengine/task.go:154-442 | the invariant holds after any list of actions |
| HttpEngineTheorems.CompleteDelivers | core/internal/httpengine/task.go:221-329 | for every payload, plan, chunking, interleaving, error pattern, mirror order and sequence of pauses and restarts, with whole bodies and no orphaned sidecar: when the task is Complete the file is the payload, followed only by what was left of a longer stale file |
| HttpEngineTheorems.CompleteIsExact | core/internal/httpengine/task.go:283-287 | a Complete file equals the payload byte for byte if and only if the destination was cut to size on the way, or held nothing longer before |
| HttpEngineConditions.ExactUnlessStale | core/internal/httpengine/task.go:283-294 | in every run a Complete file is exactly the payload, if and only if the destination held nothing longer than the payload before the first run |
| HttpEngineTheorems.SnapshotsStaySound | core/internal/httpengine/progress.go:22-55 | unless a Remove deletes the file and not the sidecar: every snapshot ever persisted, a stale one included, claims only bytes that are correct on disk, and restarting from it still delivers |
| HttpEngineResume.ResumePicksUp | core/internal/httpengine/task.go:107-118 | a Task loaded from a saved snapshot with range support sends no probe, keeps the plan, and asks for no byte that the snapshot says has arrived, through any faults, pauses and mirrors |
| HttpEngineConditions.BackedUnlessOrphaned | core/internal/httpengine/task.go:212-219 | snapshots can be relied on in every run if and only if no Remove deletes the file while the sidecar survives, or the payload is empty |
| HttpEngineConditions.OrphanCompletes | core/internal/httpengine/task.go:216-217 | the run behind the negative half: a task restarted from the surviving sidecar is Complete with an empty file |
| HttpEngineCompletion.SomeRunDelivers | core/internal/httpengine/task.go:221-251 | for every payload and prior file some run without range support completes, and it never cuts the file, so a longer stale file leaves its tail |
| HttpEngineCompletion.SomeRangedRunDelivers | core/internal/httpengine/task.go:253-329 | for every non-empty payload some run completes in ranges, one goroutine for each of the segments the plan allows, and leaves exactly the payload |
| HttpEngineConditions.DeliversExactlyWhen | core/internal/httpengine/task.go:154-442 | a Complete task has the payload on disk in every run if and only if control calls do not overlap, servers never end a body early, and no Remove deletes the file while the sidecar survives, or the payload is empty |
| HttpEngineConditions.EmptyBodyCompletes | core/internal/httpengine/task.go:432-435 | an empty body that ends cleanly makes the task Complete with the file untouched |
| HttpEngineConditions.RemoveOvertakesResume | core/internal/httpengine/task.go:154-219 | with overlapping calls: a Resume inside a Remove starts its runner after the wait, completes, and then the file is deleted |
| HttpEngineConditions.CompletesUnlessSpent | core/internal/httpengine/task.go:388-398 | a stopped task can complete in some run of the same Task if and only if it is complete already, or it is not cancelled and its plan does not ask for a range past the end of the file |
| HttpEngineConditions.PausedBeforeTheEnd | core/internal/httpengine/task.go:414-441 | the run behind it: a ranged download of unknown size, paused after its last byte and before the end of the body, holds the payload and can never complete |
| HttpEngineLifecycle.ReturnMeansStopped | core/internal/httpengine/task.go:174-219 | when Pause, Cancel or Remove returns, no goroutine is left, the task is not Active, the status is the promised one, and file, segments, snapshots and counter then stay as they are until more work is asked for |
| HttpEngineLifecycle.QuietUntilResumed | core/internal/httpengine/task.go:174-219 | with no goroutine left, no sequence of further steps without a Resume, Remove or restart changes anything on disk or in memory |
| HttpEngineLifecycle.ActiveMeansRunning | core/internal/httpengine/task.go:154-172 | Active with no control call in progress means that a runner exists; a runner means Active; a Resume starts its runner only when no goroutine is left, so there is never a second one |
| HttpEngineLifecycle.CancelledForever | core/internal/httpengine/task.go:196-210 | Cancelled is absorbing |
| HttpEngineLifecycle.ChecksumFailureSticks | core/internal/httpengine/task.go:444-456 | a checksum that differs ends the cycle in Error, and nothing but a new Resume, Remove or restart can lead to Complete after it |
| HttpEngineLifecycle.OnlyFaultsFail | core/internal/httpengine/task.go:222-251 | unless a server, the network, the disk or the checksum fails, no run ends in Error, whatever is paused, cancelled, resumed or restarted |
| HttpEngineLifecycle.PauseEndsPaused | core/internal/httpengine/task.go:174-194 | a Pause that interrupts a cycle in which nothing failed leaves the task Paused, or Complete if it was so by then |
| HttpEngineLifecycle.CancelIsFinalOnlyWhenSerialised | core/internal/httpengine/task.go:154-210 | cancellation is final in every run if and only if control calls never overlap |
| HttpEngineLifecycle.ResumeOvertakesCancel | core/internal/httpengine/task.go:160-170 | the counter-run: a Cancel between the two halves of a Resume returns before the runner it should wait for exists |
| HttpEngineLedger.CounterIsConserved | core/internal/httpengine/task.go:414-430 | at every interleaving the counter is the sum of the segments' progress and the chunks counted but not yet published, never exceeds the payload size, and equals it at Complete |
| HttpEngineLedger.StepBalances | core/internal/httpengine/task.go:379-386 | every step keeps the books, the restart of an unranged attempt from 0 included, so nothing is counted twice across retries and mirrors |
| HttpEngineLedger.FullCounterProvesDelivery | core/internal/httpengine/task.go:420-425 | even with servers that end bodies early, a Complete task's counter equals the payload size if and only if every segment reached its limit, and then the file holds the payload, unless it was deleted behind its sidecar |
| HttpEngineEffort.EffortIsBounded | core/internal/httpengine/task.go:253-375 | one Resume cycle probes each URL at most maxRetry+1 times, and fetches each segment from each URL at most maxRetry+1 times |
| HttpEngineEffort.WorkerUses | core/internal/httpengine/task.go:355-375 | a goroutine's request is always paid for by one of its attempts, and no attempt starts beyond the retry limit |
| HttpEngineTermination.CycleEnds | core/internal/httpengine/task.go:221-375 | under every interleaving with control calls, and whatever fails, a Resume cycle takes at most a fixed number of steps, each read that yields nothing adding at most two |
| HttpEngineTermination.NeverStuck | core/internal/httpengine/task.go:293-329 | while a cycle is under way some goroutine or the runner can take a step other than an empty read, possibly one in which a server or the network answers |
| HttpEngineTermination.CancelNeedsNobody | core/internal/httpengine/task.go:174-219 | once the context is cancelled, steps of the program alone, with no answer from a server, lead to the end of the cycle, and within the bound; so what Pause, Cancel and Remove wait for happens against a silent server too |
| HttpEngineTermination.StopNeedsNobody | core/internal/httpengine/task.go:174-219 | so a Pause, Cancel or Remove in progress can always be brought to its end by local steps alone |
| HttpEnginePersistence.FailsOnlyAfterEverything | core/internal/httpengine/task.go:222-375 | a cycle with no disk fault, no wrong checksum and no control call ends Complete or in Error; in Error without a plan only after maxRetry+1 probes of every URL; with a plan only after every mirror was opened, each that could be opened costing at least maxRetry+1 requests |
| HttpEnginePersistence.FailureTriesEveryMirror | core/internal/httpengine/task.go:236-251 | in such a cycle that ends in Error with a plan, for every mirror there is a moment when the runner opens the destination for it |
| HttpEnginePersistence.LastMirrorDelivers | core/internal/httpengine/task.go:236-251 | for any number of mirrors some run has every request to all but the last refused, maxRetry+1 times each, and completes through the last with the payload on disk |
| HttpFetch.SumProgress | core/internal/httpengine/task.go:115-119 | the loop in `New` computes the progress of the loaded segments |
| HttpFetch.Task.Reload | core/internal/httpengine/task.go:107-123 | a Task built from a saved snapshot is the machine's restart of the previous one |
| HttpFetch.Task.CompleteHasPayload | core/internal/httpengine/task.go:444-456 | in the object's own terms: status Complete means that the payload is on disk |
| HttpFetch.OthersLeaveUsAlone | core/internal/httpengine/task.go:307-325 | whatever runs between two critical sections of a goroutine, its own segment and position stay, range support stays, and a cancellation is not undone |
| HttpFetch.Task.Begin | core/internal/httpengine/task.go:378-386 | the locked prologue: without range support the segment and the byte counter restart from 0; it is the one step taken |
| HttpFetch.Task.Truthful | core/internal/httpengine/task.go:414-415 | every read is one a truthful server may give, and every such read can be chosen |
| HttpFetch.Task.PublishOffset | core/internal/httpengine/task.go:424-427 | the offset published is the end of the chunk on disk, and the snapshot returned is that of the state with this offset in it |
| HttpFetch.Task.ReadOnce | core/internal/httpengine/task.go:414-441 | the goroutine's steps in one turn are exactly read with write, count, publish, save and check, without the middle three when nothing was read; it reads as much of the chunk as there is room for; the read error decides before the context does, and without one the loop ends if and only if the context is cancelled |
| HttpFetch.Task.AwaitResponse | core/internal/httpengine/task.go:388-409 | the attempt fails before the body if and only if the request is refused, or asks for a range past the end |
| HttpFetch.Task.ReadBody | core/internal/httpengine/task.go:411-441 | the read loop meets the chunks one after the other, each at the offset the last one ended, and only the last turn ends it |
| HttpFetch.Task.FetchSegment | core/internal/httpengine/task.go:377-442 | an attempt refines the machine; its steps are those of the request and of the read loop over the body it met, its result is the one of the last turn; it returns nil only when the segment is delivered |
| HttpFetch.Task.Decide | core/internal/httpengine/task.go:360-373 | after a failed attempt: a cancellation and the last fault are returned; any other fault is waited out and repeated, unless the context is done before the timer |
| HttpFetch.Task.DownloadSegmentWithRetry | core/internal/httpengine/task.go:331-375 | the loop's steps are those of its attempts and back-offs in order; every attempt but the last was a fault; after a fault another follows until maxRetry+1 were made, unless a cancellation ends the wait; nil means that the segment is delivered; n attempts wait exactly 250*(n-1)*n milliseconds |
| FileNames.SanitizedIsPlain | core/internal/httpengine/segment.go:85-99 | whatever name a server sends, the result is empty or one component without separators or leading dots |
| FileNames.SanitizeKeepsPlain | core/internal/httpengine/segment.go:91-99 | exactly the plain names are left as they are, so sanitizing is idempotent |
| FileNames.LastNameIsKept | core/internal/httpengine/segment.go:91-99 | whatever directories come before it, after either kind of slash, and whatever dots lead it, the last component is what is kept |
| FileNames.NoNameIsDropped | core/internal/httpengine/segment.go:91-99 | a name that resolves to no file, or to dots only, gives the empty name |
| FileNames.RenameStays | core/internal/httpengine/task.go:36-46 | the renamed destination is in the same directory, its file name is the old prefix, a hyphen and the sanitized hint, and its prefix is unchanged |
| FileNames.IdsKeepFilesApart | core/internal/api/addtask.go:117-125 | destinations of tasks with different hyphen-free IDs never coincide, however often they are renamed |
| Paths.CleanTwice | core/internal/httpengine/segment.go:93 | path cleaning as modelled is idempotent |
| Paths.DotStays | core/internal/httpengine/segment.go:93 | a dot, or nothing between two slashes, leads nowhere, |
| Paths.DotDotUndoes | core/internal/httpengine/segment.go:93 | two dots undo the name before them, |
| Paths.DotDotAtTheTop | core/internal/httpengine/segment.go:93 | and at the root they lead nowhere; with nothing to undo in a path without a root they stay |
| Paths.JoinStays | core/internal/httpengine/task.go:45 | joining a plain name to a directory leads to that name in the same place, through any dots and double slashes |
| SchedulerOrder.BeforeIsStrictOrder | core/internal/scheduler/scheduler.go:211-223 | priority, then age, then ID is a strict total order |
| SchedulerOrder.IdLessIsLexicographic | core/internal/scheduler/scheduler.go:222 | IDs compare by their first difference, and a proper prefix comes first |
| SchedulerOrder.PositionIsRank | core/internal/scheduler/scheduler.go:211-225 | in the sorted slice the index of a task is the number of competitors before it |
| SchedulerOrder.SortedListIsUnique | core/internal/scheduler/scheduler.go:218-222 | there is only one sorted slice, so map iteration order cannot show |
| SchedulerSpec.SettleFillsTheSlots | core/internal/scheduler/scheduler.go:197-234 | an undisturbed pass makes exactly the top of the runnable tasks Active, and min(cap, runnable) of them |
| SchedulerSpec.SettleIsIdempotent | core/internal/scheduler/scheduler.go:197-234 | a second pass changes nothing |
| SchedulerSpec.HistoryDoesNotMatter | core/internal/scheduler/scheduler.go:225-233 | who runs depends on who is runnable, not on who ran or was paused before |
| SchedulerSpec.NoInversion | core/internal/scheduler/scheduler.go:211-233 | in a settled schedule no runnable task waits while one that comes after it runs |
| SchedulerSpec.HigherPriorityRuns | core/internal/scheduler/scheduler.go:211-223 | said of the entries themselves: a running task has no lower priority than a waiting one; at equal priority it was not added later; at equal age it has the smaller ID |
| SchedulerSpec.EnqueueDisturbsLittle | core/internal/scheduler/scheduler.go:104-111 | enqueuing into a settled schedule starts at most the newcomer, which runs exactly when its rank is below the cap, and stops at most one task: the last running one, with all slots taken |
| SchedulerSpec.LeavingAdmitsTheNext | core/internal/scheduler/scheduler.go:202-233 | when a running task leaves the competition, with its entry or without, exactly the task of rank cap, if there is one, takes its slot |
| SchedulerSpec.RemovalAdmitsTheNext | core/internal/scheduler/scheduler.go:161-176 | removing a running task from a settled schedule admits exactly the next-ranked runnable task, if there is one |
| SchedulerSpec.FinishingAdmitsTheNext | core/internal/scheduler/scheduler.go:202-209 | so does a running task that completes, fails or is cancelled and stays registered |
| SchedulerSpec.PauseSticks | core/internal/scheduler/scheduler.go:143-147 | a Pause through the scheduler leaves the task not running if and only if it is finished, there is no cap, or it is ranked outside the cap |
| SchedulerSpec.PauseFreesNoSlot | core/internal/scheduler/scheduler.go:143-147 | in a settled schedule with a cap, Pause leaves the running set as it was, against the comment |
| SchedulerSpec.ResumeRuns | core/internal/scheduler/scheduler.go:149-153 | a Resume through the scheduler runs the task if and only if it is neither complete nor cancelled and is ranked within the cap |
| SchedulerSpec.DirectResumeBreaksTheCap | core/internal/api/addtask.go:84-85 | a Resume that bypasses the scheduler exceeds the cap if and only if all slots are taken and the task waits |
| Scheduler.Scheduler.Collect | core/internal/scheduler/scheduler.go:202-209 | in any map order and with statuses moving meanwhile: every task not collected is finished, and every collected task was not when the pass began |
| Scheduler.Scheduler.Enforce | core/internal/scheduler/scheduler.go:225-233 | the loop leaves no task past the cap Active; undisturbed, it resumes exactly the first and pauses exactly the rest |
| Scheduler.Scheduler.RescheduleLocked | core/internal/scheduler/scheduler.go:194-234 | from any statuses, with background steps and failing resumes inside the pass, the cap holds at its end, tasks finished at its start are left to themselves, and a task in Error at its start, by a kill switch or otherwise, is still in Error at its end; undisturbed, it computes the settled schedule |
| Scheduler.PassSettles | core/internal/scheduler/scheduler.go:211-233 | sorting, resuming a prefix and pausing the rest computes the schedule that is specified by rank |
| Scheduler.OnlyTheFirstRun | core/internal/scheduler/scheduler.go:225-233 | if nothing past the cap is Active, at most cap tasks are |
| Scheduler.DriftAddsNoRunner | core/internal/task/task.go:9-16 | background completions and failures never raise the number of running tasks |
| Scheduler.FreedSlotsStayEmpty | core/internal/scheduler/scheduler.go:236-255 | a slot freed in the background stays empty: after a settled schedule has drifted, the slots are filled as far as they can be if and only if no running task finished or none waits |
| Scheduler.Scheduler.Enqueue | core/internal/scheduler/scheduler.go:104-111 | the task is registered and the cap holds afterwards, from any prior statuses |
| Scheduler.Scheduler.Change | core/internal/scheduler/scheduler.go:145-192 | not found changes nothing; a failing call leaves its task in Error and starts no pass; otherwise a pass follows; a cap that held still holds |
| Scheduler.Scheduler.Remove | core/internal/scheduler/scheduler.go:161-176 | not found changes nothing; when the task's own Remove fails the entry stays and no pass follows; otherwise the entry is gone, the rest is rescheduled, and the cap holds; a cap that held still holds |
| Scheduler.Scheduler.Records | core/internal/scheduler/scheduler.go:113-129 | every task once, the one added first in front, ties by the smaller ID, whatever the map order |
| Scheduler.Scheduler.Serve | core/internal/scheduler/scheduler.go:104-234 | over whole runs of requests mixed with background steps and failing resumes, at most maxConcurrent tasks run whenever the lock is free; undisturbed, the entries and statuses at the end are those of answering the requests one by one |
| EngineContracts.HttpTaskDrifts | core/internal/httpengine/task.go:444-463 | an HTTP task's own goroutines only complete or fail it, as the scheduler assumes |
| EngineContracts.HttpCallsConform | core/internal/httpengine/task.go:154-210 | an HTTP task's calls end in the status the scheduler assumes |
| EngineContracts.TorrentDrifts | core/internal/torrentengine/task.go:254-306 | so do a torrent's watcher and kill switch, |
| EngineContracts.TorrentCallsConform | core/internal/torrentengine/task.go:151-338 | and its calls, a failing start included |
| TorrentEngine.RunKeeps | core/internal/torrentengine/task.go:151-349 | the invariant of the three threads holds in every interleaving |
| TorrentEngine.StoppedMeansDisallowed | core/internal/torrentengine/task.go:296-318 | paused, or stopped by the kill switch, means that data download is disallowed; it is allowed only while Active, Complete or Cancelled |
| TorrentEngine.TripSticksUntilResumed | core/internal/torrentengine/task.go:280-306 | after a trip that does not fall between the halves of a Resume, no step but a new Resume or a Cancel takes the task out of Error, and nothing is downloaded |
| TorrentEngine.TripHoldsUnlessResuming | core/internal/torrentengine/task.go:151-170 | a tripped Error holds through every run without a new Resume if and only if no Resume is between its two halves |
| TorrentEngine.TripSurvivesStep | core/internal/torrentengine/task.go:160-170 | a trip's Error survives the next critical section if and only if that is not the second half of a Resume nor the end of a Cancel |
| TorrentEngine.TripInsideResumeIsLost | core/internal/torrentengine/task.go:151-168 | the run in which a trip between the halves of a Resume is overwritten and the task downloads again, unwatched |
| TorrentEngine.WatchedUnlessTripped | core/internal/torrentengine/task.go:212-221 | a running proxied task with no call in progress is watched if and only if its kill switch has never fired |
| TorrentEngine.WatcherUnlessFinished | core/internal/torrentengine/task.go:160-166 | a running task with no call in progress has its download watcher if and only if the torrent has not finished before |
| TorrentEngine.CompletesUnlessFinished | core/internal/torrentengine/task.go:254-274 | such a task can still become Complete if and only if it has not finished before |
| TorrentEngine.FinishedWhilePaused | core/internal/torrentengine/task.go:268-273 | the run behind it: the last piece arrives during a pause, and the task resumed later is Active without a watcher |
| TorrentEngine.CancelledForever | core/internal/torrentengine/task.go:320-338 | after Cancel the status is Cancelled forever and no thread is left |
| TorrentTask.OthersLeaveUsAlone | core/internal/torrentengine/task.go:202-226 | what a control call, the watcher and the kill switch may each rely on while the others run |
| TorrentTask.Task.Resume | core/internal/torrentengine/task.go:151-238 | refines the machine; undisturbed it makes the task Active and allowed, or reports a failed start and leaves Error |
| TorrentTask.Task.Pause | core/internal/torrentengine/task.go:308-318 | the task is not Active on return, and a paused one downloads nothing |
| TorrentTask.Task.Cancel | core/internal/torrentengine/task.go:320-338 | returns with the status Cancelled and both threads gone |
| TorrentTask.Task.RunDownload | core/internal/torrentengine/task.go:254-274 | the watcher refines the machine and ends; when it returns from a finished download the completion time is set and the task is not Active |
| TorrentTask.Task.RunKillSwitch | core/internal/torrentengine/task.go:280-306 | the loop refines the machine; it trips only at a leak that no earlier check had found, leaving Error with download disallowed; if no cancellation comes first it trips at the first leak and otherwise is still running |
| WebSocketFrames.FrameRoundTrip | core/internal/api/websocket.go:121-209 | parsing a printed frame, unmasked or masked with any key, gives the frame back and leaves exactly what follows it |
| WebSocketFrames.StrictPrefixIsShort | core/internal/api/websocket.go:162-197 | every strict prefix of a frame is an error |
| WebSocketFrames.EncodingIsMinimal | core/internal/api/websocket.go:126-150 | no accepted unmasked frame with the same payload is shorter (section 5.2 of RFC 6455), and one of the same length differs only in its first byte |
| WebSocketFrames.HeaderParses | core/internal/api/websocket.go:163-192 | in all three length forms the header says what it was built from, whatever follows |
| WebSocketFrames.TooLongExactly | core/internal/api/websocket.go:168-194 | for every limit from which `make` may refuse, the length announced is refused if and only if the header is complete, has the eight-byte form, and its number reaches the limit |
| WebSocketFrames.MaskTwice | core/internal/api/websocket.go:199-203 | masking is undone by masking (section 5.3 of RFC 6455); |
| WebSocketFrames.MaskByPosition | core/internal/api/websocket.go:199-203 | byte 4q+r of the payload meets byte r of the key, |
| WebSocketFrames.MaskStartsOver | core/internal/api/websocket.go:199-203 | the mask starts over every four bytes, |
| WebSocketFrames.MaskShowsKey | core/internal/api/websocket.go:199-203 | and four zero bytes show the key |
| WebSocketFrames.MaskedHello | core/internal/api/websocket.go:199-203 | the masked greeting of section 5.7 of RFC 6455 is unmasked |
| WebSocketFrames.HeaderSpelledOut | core/internal/api/websocket.go:121-150 | the unmasked header byte by byte, in its three forms |
| WebSocketFrames.WideLengthSpelledOut | core/internal/api/websocket.go:141-150 | the eight length bytes, the highest first |
| WebSocketFrames.KnownFrames | core/internal/api/websocket.go:168-208 | the opcodes of section 5.2 of RFC 6455, with a close frame ending the conversation |
| WebSocketFrames.FlagsIgnored | core/internal/api/websocket.go:168-170 | the final bit and the reserved bits are not looked at |
| WebSocketFrames.StreamRoundTrip | core/internal/api/websocket.go:69-79 | reading a stream of printed frames returns exactly those frames with nothing left over |
| WebSocketFrames.TornStream | core/internal/api/websocket.go:69-79 | a stream cut inside its last frame yields the whole frames before it |
| WebSocketIO.Reader.ReadHeader | core/internal/api/websocket.go:162-192 | the staged reads take exactly the header, and report a short one |
| WebSocketIO.Reader.ReadFrame | core/internal/api/websocket.go:162-209 | the reader computes the parse function of its platform's limit, the refusal of `make` included, and consumes exactly one frame |
| WebSocketIO.Unmask | core/internal/api/websocket.go:199-203 | the in-place loop computes the mask |
| WebSocketIO.Writer.WriteFrame | core/internal/api/websocket.go:121-156 | the pieces written make up the encoding; when the connection fails, what is out is a strict prefix of it |
| WebSocketServer.RunKeeps | core/internal/api/websocket.go:59-98 | bytes, loops and logs stay consistent under every interleaving of reader and ticker |
| WebSocketServer.OutputIsWholeFrames | core/internal/api/websocket.go:59-98 | the client parses whole frames only, in the order they were begun, all but a torn last one |
| WebSocketServer.LogsAreFaithful | core/internal/api/websocket.go:66-98 | the texts are the ticks in order; the pongs echo the client's pings in order (section 5.5.3 of RFC 6455), all of them when the reader stops on a live connection or panics |
| WebSocketServer.EndsAfterReader | core/internal/api/websocket.go:85-98 | once the reader loop has stopped, the ticker can finish the frame it is in and end without another |
| WebSocketServer.NothingEndsEarly | core/internal/api/websocket.go:66-98 | in every run the ticker has stopped only if the connection is broken or the reader loop is over, and the reader loop only if the connection is broken or no further frame can be read |
| WebSocketServer.TickIsPushed | core/internal/api/websocket.go:89-96 | on a live connection any tick can be pushed whole, and both loops are then where they were |
| WebSocketServer.MutexKeepsFramesWhole | core/internal/api/websocket.go:59-64 | the output parses in every run if and only if the writers share the mutex, or the client never pings |
| WebSocketServer.UnguardedTears | core/internal/api/websocket.go:59-64 | the run behind the negative half |
| WebSocketServer.PanicsOnImpossibleLength | core/internal/api/websocket.go:66-80 | for every such limit, some run of the reader loop panics, which nothing recovers, if and only if such a header follows the client's last whole frame |
| MegaKey.WordsOfBytes | core/internal/megalink/key.go:53-72 | words survive the trip through bytes |
| MegaKey.BytesOfWords | core/internal/megalink/key.go:53-72 | bytes survive the trip through words, up to the zero padding |
| MegaKey.WordValue | core/internal/megalink/key.go:59-62 | the first byte of a word weighs most |
| MegaKey.PaddedWithZeros | core/internal/megalink/key.go:54-58 | what is padded is zeros |
| MegaKey.BytesToA32 | core/internal/megalink/key.go:51-64 | the loop pads and unpacks into the big-endian words |
| MegaKey.A32ToBytes | core/internal/megalink/key.go:66-72 | the loop packs the words into their bytes |
| MegaKey.DeriveFileKey | core/internal/megalink/key.go:23-49 | the loops over arrays compute the key split, and the length error |
| MegaKey.SplitIsLossless | core/internal/megalink/key.go:34-48 | the eight words can be rebuilt from AES key, counter block and MAC |
| MegaKey.KeyCanBeRebuilt | core/internal/megalink/key.go:29-48 | a key is accepted if and only if it has 29 to 32 bytes, and then its padded form can be rebuilt |
| MegaKey.KeysCollideOnlyByPadding | core/internal/megalink/key.go:16-49 | two accepted keys give the same file key if and only if they agree after padding, so the derivation is injective on 32-byte keys |
| MegaDownload.DerivedIsMegas | core/internal/megalink/key.go:16-22 | the word arithmetic computes the byte-wise XOR of the two key halves, the counter block from bytes 16 to 23 and eight zeros, and the MAC from the last eight bytes |
| MegaDownload.DownloadDecrypts | core/internal/megalink/crypto.go:48-56 | every accepted key decrypts every file under 2^64 blocks that is stored under it, for any keyed block cipher |
| ByteCounter.IncrementAddsOne | core/internal/megalink/key.go:18-21 | the carrying increment adds one modulo 256 to the width |
| ByteCounter.IncrementInPlace | core/internal/megalink/crypto.go:54 | the counter loop over the array computes that increment |
| MegaCtr.CounterIsMegas | core/internal/megalink/key.go:16-22 | the 128-bit counter agrees with a 64-bit prefix beside a 64-bit block number if and only if the carries into the prefix vanish, in particular below 2^64 blocks |
| MegaCtr.KeystreamIsBlocks | core/internal/megalink/crypto.go:54-55 | the keystream is the encrypted counter blocks one after the other (section 6.5 of NIST SP 800-38A) |
| MegaCtr.CtrInverts | core/internal/megalink/crypto.go:48-56 | counter mode is its own inverse (section 6.5 of NIST SP 800-38A) |
| MegaCtr.MegaFileDecrypts | core/internal/megalink/crypto.go:48-56 | reading through the stream recovers what was encrypted block by block with that prefix and block number |
| MegaCtr.CtrStream.XorKeyStream | core/internal/megalink/crypto.go:54-55 | one read continues the one-shot stream from where the last one stopped, inside a block or not |
| MegaCtr.ReadAll | core/internal/megalink/crypto.go:49-56 | any sequence of read sizes yields the one-shot plaintext |
| MegaCbc.CbcInverts | core/internal/megalink/crypto.go:24-25 | block chaining is inverted for any invertible block function (section 6.2 of NIST SP 800-38A) |
| MegaCbc.CbcDecryptBlock | core/internal/megalink/crypto.go:25 | block by block: the block function of the cipher block, XORed with the cipher block before it, or with the IV |
| MegaCbc.CryptFrom | core/internal/megalink/crypto.go:25 | the block loop over the buffer computes the recursive decryption |
| MegaCbc.TrimTrailingNulls | core/internal/megalink/crypto.go:41-46 | the loop computes the trimmed data |
| MegaCbc.TrimmedIsClean | core/internal/megalink/crypto.go:41-46 | trimmed data ends in no zero byte |
| MegaCbc.DecryptAttributes | core/internal/megalink/crypto.go:15-39 | decrypt, trim, check the prefix, parse: with the three errors in that order |
| MegaCbc.AttributeOutcomes | core/internal/megalink/crypto.go:26-38 | for a packed blob that does not end in a zero byte: the prefix error if and only if it does not begin with the bytes of "MEGA", the parse error if and only if it does and what follows is not parsed, and otherwise the parsed value |
| MegaCbc.LengthIsChecked | core/internal/megalink/crypto.go:20-22 | the length error if and only if the input is no multiple of 16 bytes |
| MegaCbc.BlobRoundTrip | core/internal/megalink/crypto.go:12-26 | a padded, encrypted blob comes back if and only if it does not end in a zero byte |
| MegaCbc.AttributesRoundTrip | core/internal/megalink/crypto.go:12-39 | attributes packed as MEGA packs them are parsed back |

## Left out

- HTTP transport, hijacking, the SHA-1 and base64 handshake, JSON, real file-system calls: the server, the file and the sidecar are abstract; every write to the sidecar is atomic.
- AES, checksum digests and base64: abstract functions; a checksum is the outcome of the step `Verify`.
- The runner's own loops (`run`, `ensureSegments`, `downloadSegments`) and the waiting halves of the HTTP control calls are steps of the machine, not methods with loops: their waits for other goroutines have no sequential counterpart. That these waits end is `CancelNeedsNobody` with `CycleEnds`.
- The sidecar: the machine keeps the set of all snapshots ever saved and may restart from any of them, which covers lost and stale writes; it never forgets the one that finalizing deletes.
- A rename by the server's hint changes where the next start looks for the sidecar; the download machine has one destination.
- 64-bit overflow of sizes and offsets, and the 32-bit `int` conversion in `buildSegments` on 32-bit platforms: integers are unbounded there. `ContentRange` does model the 64-bit limit.
- HttpFetch.Task.FetchSegment: a body that is out of chunks without having ended counts as a broken connection, because a method takes finitely many chunks.
- Two runners of one task alive at once, which only overlapping control calls can bring about: the machine has one runner slot.
- Scheduler.Scheduler.Enqueue: registering an ID that is already in use forgets the replaced task, which in the code runs on unseen; the cap is about registered tasks.
- Persisting the task list, `Get`, bandwidth values and error texts of the scheduler.
- TorrentTask.Task.Resume: setting up the client, the proxy dialer and the torrent is one step that succeeds or fails, and the client's existence is the flag `started`.
- The seed limiter, the IP-echo leak check itself (a boolean), upload, and warnings of the torrent engine.
- Running out of memory for a payload below the limit of `make`.
- Marshalling errors of the ticker, fragmented messages and the handshake of the event socket.
- `MetaMAC` is rebuilt but, as in the code, never checked against the file.
- Windows path separators of the local file system; names are sequences of characters, not UTF-8 bytes.
- The yt-dlp and Booth engines and `megalink.Task` repeat the HTTP lifecycle; resolvers, scraping, settings, authentication, rate display and the dashboard would add only easy members.
