# Verified model of the systemd task driver

The plugin lets Nomad run existing systemd units as tasks. Many goroutines share a unit ownership map, a
task store, a manager's unit table, wake channels, journal readers and one DBus connection, and its
correctness rests on the order of short lock-protected steps. This project models those steps and proves
what every interleaving of them keeps. `dafny verify dfyconfig.toml` checks everything.

## How it is built

Each concurrent component is a state machine: a `State` holding what the goroutines share and where each
of them stands, an `Event` per critical section, channel operation or answer from outside, `Enabled` and
`Step`. A run is any sequence of enabled events, so a theorem about runs is a theorem about every
interleaving, every answer of systemd and every choice of a `select` with several ready cases.

Beside each machine stands a class whose methods are the source's methods in program order. Between any two
critical sections, while a method waits in a select or for a wait group, and across its requests to systemd,
it calls `Interfere`, which lets everything else run on a schedule that the caller chooses. A method that
waits for another goroutine alternates: a slice of the schedule, then a step of that goroutine, told whatever
the caller chooses; so its end is proved for every schedule with an end, and the theorems about runs say how
many steps it can take. Every method ensures `Reaches(old(View()), View())`, or `After`, which adds the
invariant: what it did, together with everything that ran meanwhile, is a run of the machine. The theorems
about runs therefore hold of the code in its own form. `Wakes` and `TaskStore` have no machine; their methods
are specified directly.

| file | what it models |
|---|---|
| Systemd.dfy | unit states, exit statuses, exit results |
| Handler.dfy, HandlerObject.dfy | a task handler: exit transition, poll loop, wake channel |
| Lifecycle*.dfy | StartTask, RecoverTask, StopTask, DestroyTask and WaitTask over the shared state; proofs, promises, and what fails without the hypotheses |
| Driver.dfy, Ownership.dfy, Policy.dfy | the driver's methods, the ownership map, the unit policy |
| Manager.dfy, ManagerProofs.dfy, ManagerEnds.dfy, ManagerObject.dfy | journal readers, the unit table, the reconnect loop, Stop and the end of its waits |
| ReaderSystem.dfy | the manager together with the loop of each of its readers |
| UnitTable.dfy, Wakes.dfy | registrations and their wake channels |
| LogPipeline.dfy, LogObject.dfy | the journal reader's loop, the log channel, the log writer |
| WakeDelivery.dfy | wakes from their lookup to the poll loop they are for |
| TaskReaders.dfy, TaskReadersExample.dfy | a task's journal reader from Handler.Start to DestroyTask, across the driver and its manager |
| Backoff.dfy | the capped doubling delays, in wrapping int64 nanoseconds |
| Cgroup.dfy | the cgroup line scanner and its two early-exit consumers |
| Store.dfy | the task store and its Stop |
| Options.dfy, Schedules.dfy | small helpers |

## Hypotheses

- Calls for one task ID do not overlap (`Serialized`); StopTask and WaitTask may overlap with anything.
- Shutdown has not begun (`Disciplined`): Store.Stop empties the store without releasing claims.
- Only for the results about registrations: the manager is not swapped while a task is tracked or a call
  in flight (`SwapsWhenIdle`). The ownership results need no such thing.

`LifecycleLimits` shows with concrete runs that none of the three can be dropped: each run breaks one
hypothesis only, and negates what holds without the breach.

## Where the code and its comments differ

- The comment on WaitCh (pkg/task/task.go:228-233) promises that a closed channel means a result. For a
  handler built for an exited task the channel is closed before SetExitResult.
  `TaskHandler.ResultIsMissingIff` says exactly when the result is missing,
  `TaskHandler.FreshExitedHandlerHasNoResult` shows such a handler, and
  `LifecycleTheorems.StoredHandlersHaveResults` that no such handler is ever stored.
- The comment on claimUnit (plugin/unit.go:77-82) allows a task to claim its own unit again.
  `LifecycleTheorems.ClaimsTakeFreeUnits`: no run needs that while calls for one ID do not overlap.
- A comment in getCgroupV2Stats (pkg/systemd/cgroup.go:171-172) says that no further key is consumed once anon
  and file are in hand. That is exact if and only if no later line repeats one of them
  (`Cgroup.EarlyExitIsExactIff`, with `Cgroup.EarlyExitMissesARepeat`), and the CPU sample is exact only up to
  (2^64-1)/1000 microseconds (`Cgroup.CpuIsTheFirstUsage`, with `Cgroup.CpuSampleWraps`).

## Model

| member | source | states |
|---|---|---|
| LifecycleTheorems.OneUnitOneTask | plugin/task.go:32-346 | in every reachable state each tracked task owns its unit, so two tracked tasks never share one |
| LifecycleTheorems.NoClaimLeaks | plugin/task.go:45-57 | every claim belongs to a tracked task or a call in flight; a task without a call in flight owns exactly the unit it is tracked with, whatever failed before |
| LifecycleTheorems.StartsUnderOwnership | plugin/task.go:135-163 | a start and the stop that rolls it back happen while the task owns the unit, and any other call reaching its claim meanwhile is turned away without an effect |
| LifecycleTheorems.ClaimsTakeFreeUnits | plugin/unit.go:77-94 | a successful claim always takes an unowned unit |
| LifecycleTheorems.TasksLeaveForAReason | plugin/task.go:301-341 | only DestroyTask removes a task, after its exit was observed or, by force, after a stop job was done or a kill attempted |
| LifecycleTheorems.UnforcedDestroyOnlyObserves | plugin/task.go:292-329 | an unforced destroy never issues a stop or kill: the second look at HasExited cannot disagree with the first |
| LifecycleTheorems.RejectedDestroyChangesNothing | plugin/task.go:282-299 | whatever ran in between, a rejected destroy leaves the task's entry and claims as they were at its first step |
| LifecycleTheorems.WaitDeliversThePublishedResult | plugin/task.go:196-229 | WaitTask delivers the handler's published result, never the zero fallback |
| LifecycleTheorems.StoredHandlersHaveResults | plugin/task.go:82-102 | a handler in the store has a result whenever its wait channel is closed, on both paths into the store |
| LifecycleTheorems.StopTaskTellsTheTruth | plugin/task.go:236-278 | nil is returned only for an observed exit, a done job, a delivered kill, or a terminal reading after a failed kill; an error only for an unknown task or a failed kill |
| LifecycleTheorems.CallsNeverGetStuck | plugin/task.go:331-338 | no call waits for anything but, in Handler.Stop, the handler's poll loop and log writer; DestroyTask always finds a manager |
| LifecycleRequests.RequestsAreInOrder | plugin/task.go:236-329 | what each finished call has asked of its unit, in order: a rolled back start exactly if the start failed, a kill exactly if neither an exit nor a done job spared it, nothing for a recovery or an unforced destroy |
| LifecycleRequests.FailedStartsAreRolledBack | plugin/task.go:157-163 | on every run a start that failed is rolled back, by the owner of the unit, before the release or the end of the call |
| LifecycleRequests.ExitedTasksAreDestroyedQuietly | plugin/task.go:292-301 | a destroy, forced or not, of a task that has exited by the time it looks asks for nothing, whatever else runs |
| LifecycleRequests.RecoveredAsRead | plugin/task.go:63-73 | the handler of a recovered task starts exited exactly if the reading is terminal, and running otherwise, transitional states included |
| LifecycleRequests.RecoveredResultFits | plugin/task.go:82-102 | a task recovered exited shows for good the result that fits the reading and the exit status its recovery was given |
| LifecycleProofs.StepKeepsOwn | plugin/task.go:32-346 | every step of every call, handler goroutine and config reload keeps the ownership invariant |
| LifecycleRegistration.TrackedTasksAreRegistered | plugin/task.go:72-73 | each tracked task not past its own unregister has its unit registered and polls exactly the registered channel; nothing unowned is registered |
| LifecycleRegistration.DestroyUnregistersItsOwn | plugin/task.go:331-341 | a destroy removes its own unit's registration and no other, and no other tracked task has that unit |
| LifecycleRegistration.StepKeepsReg | plugin/task.go:168-169 | every step keeps the registration invariant |
| LifecycleLimits.OverlappingStartsShareAUnit | plugin/task.go:108-172 | a run on which only the starts of one ID overlap: two tracked tasks share a unit and one of them does not own it |
| LifecycleLimits.SwapLosesRegistrations | plugin/driver.go:153-157 | a run on which only a manager swap is out of order: a tracked task's unit is not registered, and no destroy accounts for that |
| LifecycleLimits.ShutdownLeaksClaims | pkg/task/store.go:62-70 | a run on which only Shutdown is out of order: a claim that neither a tracked task nor a call accounts for |
| Drivers.Driver.StartTask | plugin/task.go:108-185 | under any interference: success leaves the task tracked, running, with a permitted unit, and in every outcome its claims are exactly what it is tracked with; it asks for a start only of a unit that neither runs nor starts, and then for a stop exactly if the start failed; undisturbed before its claim, it succeeds exactly for an unknown ID, a valid and permitted unit, a manager, a free unit, and a unit that runs or starts, and asks for nothing when it is not admitted |
| Drivers.Driver.StartOrRollBack | plugin/task.go:157-166 | it asks for the start, and for a stop exactly if the start failed; the task owns the unit when the start is requested and when the call goes on |
| Drivers.Driver.RollBackFailedStart | plugin/task.go:411-416 | it asks for the stop, and the task owns the unit when it does and after it |
| Drivers.Driver.RecoverTask | plugin/task.go:32-105 | success means the ID was tracked before or is tracked now with its unit, and in every outcome the claims are exactly what the task is tracked with; a unit found down is stored as an exit whose result fits the reading and the exit status, and, left alone, any other as running; it asks systemd for nothing; undisturbed before its claim, it succeeds exactly for a known ID or a valid one whose unit is free and readable |
| Drivers.Driver.DestroyTask | plugin/task.go:282-346 | it ends unknown, rejected and still tracked, or gone, owning nothing and its unit registered nowhere, each exactly when the ID, the exit and force say so; it asks for a stop only by force and never for a task that has exited, and for a kill exactly if neither an exit nor a done job ended the wait |
| Drivers.Driver.JoinGoroutines | pkg/task/task.go:150-154 | on any schedule of everything else and for any answers of systemd the wait in Handler.Stop ends, with poll loop and log writer finished |
| Drivers.Driver.TearDown | plugin/task.go:331-343 | unregister, delete and release in that order leave the task untracked, owning nothing and its unit unregistered, whatever runs between them |
| Drivers.Driver.StopTask | plugin/task.go:236-278 | for any timeout and order of completions a nil error has one of the four reasons, and each reason, for a task that was found, gives a nil error; it asks for a stop, and for a kill exactly if the wait ended without an exit or a done job, and for nothing when the ID is unknown |
| Drivers.Driver.AwaitStop | plugin/task.go:304-328 | why a forced destroy goes on: an exit that happened, a done job, or else a kill that was delivered, failed, or failed on a unit already down; an exit or a done job that fires ends the wait without a kill, anything else leads to one |
| Drivers.Driver.Guard | plugin/task.go:292-301 | the destroy proceeds exactly when forced or exited, and asks for a stop only of a task that has not exited |
| Drivers.Driver.ForceKill | plugin/task.go:423-435 | it succeeds exactly for a delivered kill or a terminal reading after a failed one |
| Drivers.Driver.SendExitResult | plugin/task.go:206-226 | once the wait channel is closed the result sent is the published one |
| Drivers.Driver.WaitTask | plugin/task.go:196-229 | an error exactly for an unknown ID; otherwise the published result, an end only for a done context, or further waiting only while neither is ready |
| Drivers.Driver.SwapInManager | plugin/driver.go:151-157 | whatever runs between its two steps, a manager has been added and the table of the one it replaced is empty |
| Drivers.Driver.InstallManager | plugin/driver.go:151-155 | exactly one manager is added, with no units, and nothing else changes |
| Drivers.Driver.StopReplaced | plugin/driver.go:155-157 | exactly the replaced manager's table is emptied |
| Drivers.Driver.ClaimUnit | plugin/unit.go:83-94 | the claim succeeds exactly for a unit unowned or already the task's, and changes nothing otherwise |
| Drivers.Driver.ReleaseUnit | plugin/unit.go:98-103 | the unit becomes unowned |
| Policy.Check | plugin/unit.go:57-75 | denied patterns always win, named by the first that matches; otherwise an empty allowlist permits all |
| TaskHandler.StatusIsConsistent | pkg/task/task.go:186-203 | for every interleaving: closed exactly when exited, closed once, and with a result once the handler watches |
| TaskHandler.ResultIsMissingIff | pkg/task/task.go:228-236 | an exit shows without a result exactly for a handler built exited and not yet given one |
| TaskHandler.FreshExitedHandlerHasNoResult | pkg/task/task.go:108-112 | such a handler: exited, its channel closed, no result |
| TaskHandler.LateResultReplacesThePublished | pkg/task/task.go:156-167 | SetExitResult after Start would replace the published result, which is why it must come before |
| TaskHandler.ExitIsFinal | pkg/task/state.go:80-129 | Exited is never left and nothing published with it ever changes |
| TaskHandler.FirstResultWins | pkg/task/state.go:105-126 | of all calls in the unlocked window the first to reach the second critical section decides the result for good |
| TaskHandler.PublishedResultFits | pkg/task/state.go:105-150 | whatever runs between, a published result fits the state with which its call was entered and the exit status that call was told |
| TaskHandler.NoLostWakeup | pkg/task/state.go:21-48 | after any wake: a token is pending, a read is about to begin, one began since, or the loop is over for an exit or Stop |
| TaskHandler.PendingWakeIsServed | pkg/task/state.go:33-76 | every run from a pending token that goes on until the loop can go no further but for a tick has begun a fresh read or has finished, for an exit or Stop |
| TaskHandler.ReadsKeepComing | pkg/task/state.go:21-76 | on every run the loop takes at most nine own steps without a read, whatever systemd answers and whoever interleaves |
| TaskHandler.PendingWakeKeepsTheLoopGoing | pkg/task/state.go:33-47 | with a token pending the loop always has a step of its own that nobody takes away |
| TaskHandler.LoopRunsOut | pkg/task/state.go:21-48 | on every run the loop's own steps are at most nine and nine for each tick and each wake it hears |
| TaskHandler.CancelledLoopGoesOn | pkg/task/state.go:33-38 | a cancelled loop always has a step towards its end, whatever systemd answers |
| TaskHandler.JoiningIsBounded | pkg/task/task.go:129-154 | on every run the loop takes at most nine steps and nine for each tick and wake, the writer one; and until both are joined one of them has a step towards it |
| TaskHandler.StopIsJoined | pkg/task/task.go:129-154 | every run from a cancelled handler that goes on until its goroutines can go no further, ticks and wakes aside, has joined both |
| TaskHandler.StepKeepsInv | pkg/task/state.go:80-129 | every step of observers, poll loop and users keeps the handler's invariant |
| HandlerObjects.Handler.HandleStateChange | pkg/task/state.go:80-129 | whatever races with it, a terminal reading ends as an exit with result and closed channel, and if nothing raced with the result that fits the reading and the exit status: the exit code, the signal, or, when neither is known, the state; another reading moves a task not exited to its state and an exited one nowhere |
| HandlerObjects.Handler.PublishResult | pkg/task/state.go:111-129 | the second critical section keeps the result there is, or publishes its own |
| HandlerObjects.Handler.CheckTaskState | pkg/task/state.go:53-76 | it reports an exit exactly when the loop may end, and a terminal reading makes one; left alone it leaves the task in the state of the reading, with the result that fits it |
| HandlerObjects.Handler.PollTaskState | pkg/task/state.go:21-48 | with everything else going on while it waits, the loop ends only for an exit or Stop, and always when it finds the unit down on a tick or a wake that came while it waited, or hears a cancellation, whenever that was; left alone it ends exactly then |
| HandlerObjects.Handler.Hear | pkg/task/state.go:33-47 | a tick or a wake, pending or come in while waiting, leads to a check, and a cancellation, before or while waiting, to the end when it is what the select takes |
| HandlerObjects.Handler.SetExitResult | pkg/task/task.go:161-167 | result and completion time are recorded and nothing else changes; for an exited handler before Start the invariant is kept |
| Systemd.SuccessMeansCleanExit | pkg/task/state.go:131-150 | no error, no signal and code 0 agree, and hold exactly for a clean exit or, when the end of the process is unknown, for a unit not failed |
| Systemd.BuildExitResult | pkg/task/state.go:131-150 | the exit code of a process that exited, the signal of one that was killed or dumped, and otherwise 1 for a failed unit and 0 for another |
| Systemd.SpellingsDecideTheTask | pkg/systemd/unit.go:158-186 | "inactive" and "failed" end a task, "active" makes it running, any other spelling leaves it unknown |
| Systemd.ParseUnitState | pkg/systemd/unit.go:158-164 | every spelling is kept, known or not |
| Systemd.ToTaskState | pkg/systemd/unit.go:166-186 | exited exactly in a terminal unit state, running exactly in the active one |
| ManagerProofs.ReadersAreAccountedFor | pkg/systemd/journal.go:177-198 | the wait group counts exactly the running readers; each uncancelled one belongs to a registered unit or is about to be cancelled by who displaced it |
| ManagerProofs.NoReaderAfterSealing | pkg/systemd/systemd.go:155-169 | once stopping is set no reader ever joins |
| ManagerProofs.StopClosesLast | pkg/systemd/systemd.go:149-184 | the connection is closed only with no loop and no reader left |
| ManagerProofs.StopWaitsForTheReaders | pkg/systemd/systemd.go:171-175 | every reader still running may leave, and the wait is over exactly when none runs |
| ManagerEnds.LoopsRunOut | pkg/systemd/systemd.go:251-274 | on every run the reconnect loop takes at most six own steps and six for each tick, and the dispatch loop leaves once |
| ManagerEnds.LoopsCanLeave | pkg/systemd/systemd.go:149-154 | wherever the loops stand while Stop waits, one has a step towards its end that nobody takes away |
| ManagerEnds.LoopsWaitEnds | pkg/systemd/systemd.go:149-154 | every run from the wait that goes on until neither loop can go further, ticks aside, has left both, and the wait is over |
| ManagerEnds.ReadersCountDown | pkg/systemd/systemd.go:155-175 | once sealed, on every run the wait group falls by exactly one for each reader that leaves |
| ReaderSystem.RunsAreManagerRuns | pkg/systemd/journal.go:96-162 | with each reader's loop in place of the assumption about when readers leave, every run is a run of the manager |
| ReaderSystem.EveryReadersLogIsConserved | pkg/systemd/journal.go:102-160 | every reader of every such run conserves its log and has left its loop only after a cancellation |
| ReaderSystem.ReadersRunOut | pkg/systemd/systemd.go:171-175 | once the manager is sealed its readers take at most five more steps each, full channels and failing journals included |
| ReaderSystem.RunningReadersCanMove | pkg/systemd/journal.go:96-162 | ... and each that runs always has a step to take |
| ReaderSystem.ReadersWaitEnds | pkg/systemd/systemd.go:171-175 | every run of a sealed manager that goes on until no reader can go further has no reader left, and Stop's wait is over |
| ManagerProofs.OneReaderPerUnit | pkg/systemd/journal.go:177-198 | a unit has at most one reader that nobody has cancelled or is about to, and none unless it is registered |
| ManagerProofs.ConnectionsAreConserved | pkg/systemd/systemd.go:213-222 | every connection ever dialled is closed exactly once, except the current one and one being swapped; the backoff has its closed form |
| ManagerProofs.StopIsFinal | pkg/systemd/systemd.go:149-184 | after Stop every connection is closed once, no reader runs, and no later event changes that |
| ManagerProofs.StepKeepsInv | pkg/systemd/systemd.go:149-184 | every step of every call, loop and reader keeps the manager's invariant |
| ManagerObjects.Manager.StreamLogs | pkg/systemd/journal.go:57-98 | it succeeds only for a registered unit on an unsealed manager with a journal, undisturbed exactly then; its reader is counted, and a refused reader is cancelled and abandoned |
| ManagerObjects.Manager.StartJournalReader | pkg/systemd/journal.go:177-198 | the reader joins exactly if the unit is registered and the manager not stopping, and the reader it displaces is cancelled |
| ManagerObjects.Manager.RegisterUnit | pkg/systemd/unit.go:228-243 | the displaced entry's reader is cancelled on return, however readers come and go meanwhile; left alone it leaves the unit with a fresh entry |
| ManagerObjects.Manager.PutEntry | pkg/systemd/unit.go:229-232 | the unit gets a fresh entry, without a reader |
| ManagerObjects.Manager.UnregisterUnit | pkg/systemd/unit.go:252-264 | the removed entry's reader is cancelled on return |
| ManagerObjects.Manager.SetConn | pkg/systemd/systemd.go:213-222 | the new connection is current and open, the replaced one closed once |
| ManagerObjects.Manager.TryReconnect | pkg/systemd/systemd.go:278-308 | it fails without touching anything, or leaves a fresh open connection and the old one closed |
| ManagerObjects.Manager.CheckAndReconnect | pkg/systemd/systemd.go:263-268 | a healthy connection is left alone; otherwise the one that is dialled is current, and a failed dial changes nothing |
| ManagerObjects.Manager.ReconnectLoop | pkg/systemd/systemd.go:251-274 | the loop ends only for a cancelled context, each delay is the capped doubling for the failures in a row, and it dials exactly when it finds no connection |
| ManagerObjects.Manager.CollectCancels | pkg/systemd/systemd.go:161-166 | in any map order, exactly the registered units' readers are collected |
| ManagerObjects.Manager.CancelReaders | pkg/systemd/systemd.go:171-173 | every collected reader is cancelled |
| ManagerObjects.Manager.Stop | pkg/systemd/systemd.go:149-184 | whatever runs during its waits, it returns, with loops and readers gone and each connection closed once |
| ManagerObjects.Manager.AwaitLoops | pkg/systemd/systemd.go:152-153 | the wait for the two loops ends, on any schedule and for any health checks and dials |
| ManagerObjects.Manager.AwaitReaders | pkg/systemd/systemd.go:175-176 | the wait for the readers ends, on any schedule |
| Wakes.Channels.WakeUnit | pkg/systemd/unit.go:501-515 | right after it the channel found under the lock holds a token, even if the unit is gone by then |
| Wakes.Channels.StopUnit | pkg/systemd/unit.go:326-348 | success exactly for a job reported done; on every path out the channel the unit then has is woken after all else |
| Wakes.Channels.KillUnit | pkg/systemd/unit.go:356-370 | success exactly for a delivered signal, with the same wake |
| Wakes.Channels.WaitJobResult | pkg/systemd/unit.go:519-531 | only "done" is a success |
| Wakes.Channels.DispatchLoop | pkg/systemd/unit.go:482-497 | until it hears the cancelled context, each update is sent on the channel its unit has at that moment, whenever it was registered |
| WakeDelivery.SendWakesTheTask | pkg/systemd/unit.go:501-515 | the lookup for a tracked task's unit finds the channel its handler polls, and whatever runs until the send, the send wakes that handler |
| WakeDelivery.StopUnitsWakeIsServed | pkg/systemd/unit.go:326-370 | end to end, on every run: after the send the task's handler has begun a read since, or has ended, or has a token or a read ahead of it and a step to take |
| TaskReaders.StartsAreNotRefused | pkg/task/task.go:114-127 | Handler.Start finds its unit registered, first and last: its StreamLogs fails only for want of a journal, and otherwise the handler has its reader |
| TaskReaders.TasksHaveOneReader | pkg/task/task.go:122-127 | a tracked task has exactly the reader its Start made, running and uncancelled, until its own destroy unregisters the unit, from when on the unit has none |
| TaskReadersExample.SomeTaskHasItsReader | pkg/task/task.go:122-127 | a run on which a task is tracked and its handler has its reader |
| LogPipeline.LogsAreConserved | pkg/systemd/journal.go:102-160 | eligible records read are, in order, those handed over, those buffered (at most 100) and at most one in flight or given up; each line reaches its stream in order |
| LogPipeline.RecordsReachTheirStream | pkg/task/logs.go:87-105 | from the record to the stream, on every run: a record with a MESSAGE that is fetched and handed to the writer is a line with its priority, identifier and message, on stderr for priorities 0 to 3 when stderr could be opened, else on stdout |
| LogPipeline.JournalBackoff | pkg/systemd/journal.go:100-126 | on every run the delay is 0.5 s doubled for each failed advance in a row, at most 5 s |
| LogPipeline.CancelledReaderStops | pkg/systemd/journal.go:96-162 | once cancelled a reader takes at most four more steps, sends at most once and passes the top of its loop at most once |
| LogPipeline.ReaderBlocksOnlyOnAFullChannel | pkg/systemd/journal.go:153-159 | an unfinished reader can move unless the channel is full and it is not cancelled, and only then is it stuck |
| LogPipeline.StoppedWriterRunsOut | pkg/task/logs.go:70-83 | on every run the writer takes one step more than its entries, those at most what was buffered and sent; stopped, it always has the step that ends it |
| LogPipeline.StoppedWriterEnds | pkg/task/logs.go:70-83 | every run of a stopped writer that goes on until it can go no further has ended it |
| LogObjects.Pipeline.ReadJournal | pkg/systemd/journal.go:96-162 | the entries it fetches are, in order, the MESSAGE, PRIORITY, SYSLOG_IDENTIFIER and receipt time of the records that have a MESSAGE among the answers it got to; it ends only when cancelled and is held up only by a full channel |
| LogObjects.Pipeline.BackOff | pkg/systemd/journal.go:109-123 | a failed advance doubles the delay, capped, unless it is cut short |
| LogObjects.Pipeline.StreamLogs | pkg/task/logs.go:70-83 | entries are taken in order, none lost; the writer ends only because the handler stops, and left alone it takes all there is |
| LogObjects.Pipeline.WriteLogEntry | pkg/task/logs.go:87-105 | one line, with the name of its priority, the identifier if there is one and the message, on stderr for priorities 0 to 3 if it could be opened, else on stdout |
| Backoff.DelayIsCappedDoubling | pkg/systemd/systemd.go:254-271 | after k failures the delay is min(base*2^k, max), within bounds, monotone, and int64 never wraps |
| Backoff.BothLoopsAreSane | pkg/systemd/journal.go:20-23 | both loops' constants meet the hypothesis of the closed form |
| Backoff.TheDelays | pkg/systemd/systemd.go:254-271 | the delays themselves: 10, 20, 40, 80, 160, 300 s and 0.5, 1, 2, 4, 5 s |
| Cgroup.ScanCgroupKeyValue | pkg/systemd/cgroup.go:235-258 | the loop calls the callback on exactly the parseable lines, in order, up to and including the first that returns false |
| Cgroup.RenderedPairsAreScanned | pkg/systemd/cgroup.go:230-258 | scanning rendered key/value lines gives the list back, with or without a last newline |
| Cgroup.LineIsParsed | pkg/systemd/cgroup.go:244-252 | one rendered line is parsed back to its pair |
| Cgroup.SomeLines | pkg/systemd/cgroup.go:230-258 | a file with a padded value, a line with no number and one without a space |
| Cgroup.NumberIsRead | pkg/systemd/cgroup.go:262-274 | a file holding a number below 2^64, in ASCII white space or not, is read as that number; "max" and an empty file are not read |
| Cgroup.WhatIsReadIsThere | pkg/systemd/cgroup.go:262-274 | a number that is read is the decimal value of digits in the file, outside of which it has none |
| Cgroup.MemoryIsWhatTheLinesSay | pkg/systemd/cgroup.go:155-174 | RSS and Cache are the last values of anon and file among the lines up to the one that completes the two, and measured exactly if there is one |
| Cgroup.EarlyExitIsExactIff | pkg/systemd/cgroup.go:155-174 | stopping early reports what a full scan would exactly for a file in which no anon or file line follows one of each |
| Cgroup.EarlyExitMissesARepeat | pkg/systemd/cgroup.go:155-174 | a file on which it does not: anon, file, anon |
| Cgroup.EarlyExitKeepsTheReport | pkg/systemd/cgroup.go:155-174 | in particular for a file with at most one of each, wherever they are |
| Cgroup.CpuIsTheFirstUsage | pkg/systemd/cgroup.go:179-189 | the sample is the first usage_usec times 1000 in uint64, exact exactly up to (2^64-1)/1000 |
| Cgroup.CpuSampleWraps | pkg/systemd/cgroup.go:179-189 | the least usage that wraps comes out as 384 ns |
| Cgroup.GetCgroupV2Stats | pkg/systemd/cgroup.go:134-204 | a sample exists exactly if anything was measured; RSS and Cache are the last anon and file values among the lines up to the one that completes the two, and the rest is what the files hold |
| TaskStore.Store.Set | pkg/task/store.go:26-31 | the entry is added or replaced and nothing else changes |
| TaskStore.Store.Get | pkg/task/store.go:35-42 | the stored handler, or none |
| TaskStore.Store.Delete | pkg/task/store.go:46-51 | the entry is gone and nothing else changes |
| TaskStore.Store.Snapshot | pkg/task/store.go:65-68 | the snapshot holds each handler as often as it was stored |
| TaskStore.Store.Stop | pkg/task/store.go:62-86 | the store is empty and each handler it held was stopped as often as it was stored |
| TaskStore.StoppedOnceIfPresent | pkg/task/store.go:53-86 | over any operations, a handler set once is stopped exactly once if some Stop found it, else never |
| TaskStore.GoneAfterStop | pkg/task/store.go:57-61 | a handler that a Stop has taken out never comes back |

## Left out

- DBus, systemd, the journal, cgo, the log FIFOs and the cgroup files: they answer whatever they like.
- Nomad's RPC and HCL plumbing, fingerprinting, events, pprof, logging, CPU percentages, start times.
- Regular expressions: a pattern is an arbitrary predicate; compileUnitPolicy is not modelled.
- Real time: timers fire at any moment; only the backoff delays are computed.
- The goroutine that goes on with StopUnit after StopTask or DestroyTask has returned: nothing is claimed about it, nor about when its request ends.
- Handlers whose manager was swapped: they keep the unit table they were built with, and nothing is claimed of their wakes.
- Object identity in the concurrent classes: handlers, readers, connections and unit table entries are known by their order of allocation, so aliasing of heap objects is not captured there; TaskStore uses heap objects.
- Concurrent stops inside Store.Stop: handlers are stopped one after the other, in any order.
- Characters stand for bytes in cgroup files and log lines.
- Drivers.Driver.StopTask: what a call has asked for is what it has issued, in the order of issuing; whether and when systemd acts on it is systemd's.
- Manager.Start: a manager's two loops run from the beginning, and it starts connected, so a nil connection does not occur.
- Drivers.Driver.StartTask: its answers from systemd are fixed before it runs and time stamps are not modelled; that covers every behaviour, since all answers are allowed.
- HandlerObjects.Handler.PollTaskState: the script of what the loop hears is finite, so an endless wait shows as the end of the script.
- LogObjects.Pipeline.StreamLogs: opening the two files, with five attempts for stdout, is a constructor argument; failed writes are only logged by the source and count as written.
- ManagerObjects.Manager.RegisterUnit: the read of the unit's properties that follows is left out, because what is cached only feeds the cgroup path of resource statistics.
- ManagerObjects.Manager.TryReconnect: the refresh of the registered units' cached properties is only a step of the loop, for the same reason.
- TaskReaders.TasksHaveOneReader: one manager, which nobody stops, so Shutdown and config reloads are outside it.
- ManagerObjects.Manager.AwaitReaders: there a reader leaves in one step; what its loop does until then is ReaderSystem's, whose runs are proved to be runs of the manager.
- TaskHandler.StopIsJoined: the log writer is one flag there; that a stopped writer ends is LogPipeline.StoppedWriterEnds, and the two are related by their meaning only.
