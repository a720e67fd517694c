# Verified model of the desktop shell and its scripts

A Dafny model of the parts of this repository whose correctness depends on interleavings, crashes, optimistic
concurrency, wire formats or arithmetic, with proofs of what those parts are for.  `dafny verify dfyconfig.toml`
checks all of it.

Concurrent components are written twice and tied together.  A *step machine* (`State`, `Event`, a total `Next`, and
`Run` over a list of events) has one event per atomic statement or critical section of the source, so a theorem about
`Run(es)` for every list `es` is a theorem about every interleaving; an event that is not enabled changes nothing.
Beside it a *class* has the fields of the source's object, and each of its methods is proved to do to those fields what
the machine's functions say.  In-place algorithms are methods with loops proved against an independent reference.
Where a property turned out not to hold, the code is kept as it is, a concrete run shows the failure, and an
if-and-only-if lemma says exactly when it holds.

| file | what it models |
|---|---|
| `BackendRuntime.dfy` | the backend's event loop, its callers and `stop()` |
| `EvidenceJobs.dfy` | the bounded, time-limited job table behind the bridge |
| `ShellShutdown.dfy` | building the shell, and the cleanup three callers race for |
| `PushQueue.dfy` | the drop-oldest queue to the web view |
| `JsonFraming.dfy`, `JsonReading.dfy` | the batch text it sends, and the page's reading of it |
| `AppPromotion.dfy` | crash-safe replacement of an installed app |
| `TradeLifecycle.dfy`, `TradeMoney.dfy` | revisioned close and cancel of a trade, and its profit and R multiple |
| `BridgeReconnect.dfy` | the browser extension's reconnecting socket |
| `TreeDigest.dfy` | the byte stream behind the artifact digests, with its decoder |
| `OrderBook.dfy`, `StressBatches.dfy` | price-time matching, pruning, the id index and the batch buffer |
| `Percentiles.dfy` | the two percentile implementations and their reports |
| `PriceLevels.dfy` | repair of price levels read off a screenshot |
| `DirectorySize.dfy` | the worklist directory measurement and the resource sampler |
| `EvidenceMatching.dfy` | greedy pairing of distribution and smoke reports |
| `Options.dfy`, `Rounding.dfy` | an option type; Python's `round` on reals |

## What the proofs found

* **Callers can be left waiting on a dead loop.** `runtime.py` (lines 45 and 121-123) says that `stop()` releases
  whoever waits on the loop.  A caller between its shutdown check and its insert into the table when `stop()` copies the
  table is missed.  `StrandedIffInTheGap` shows that these are the only ones; they end in their own timeout.
  `CallerCanBeStranded` is such a run.
* **The loop can close on an open lifespan.** A stop request also breaks off the waits for the startup and the shutdown,
  and the loop is closed in a `finally`.  `LeftOpenIff` says exactly when an entered lifespan is never exited;
  `StopDuringStartup` and `StopDuringExit` are such runs, and `OneStopExits` the case that is safe.
* **A stop request can be swallowed** in the turn in which the finished startup's done-callback runs, which leaves a
  loop that runs on, refuses everyone and needs a further `stop()`.  `SwallowedIff` says that this is the only such
  turn, `ComesDownIff` what can still end a running loop; `StopSwallowed` is such a run.  One turn earlier the request
  takes effect through the callback it leaves behind; `StopCarriedOver`.
* **An evidence job can be delivered twice.** Lookup and removal are two critical sections; `SecondDeliveryIff`,
  `DeliveredTwice`.
* **A port change during an outstanding storage read starts a second connection attempt**, after which `isConnected`
  can be true for a socket that is not open; `SingleStaysIff`, `TruthfulStaysIff`, `WholeRunIff`,
  `OverlapLeavesStaleFlag`.
* **The directory digest is not injective for files with NUL bytes.** `SharedIff` says which trees share their stream
  with another; `StreamShared` is one.
* **A fatal exception inside a cleanup step makes the cleanup run again** from the start for the next caller;
  `StepsOnceIffNothingEscapes`, `StepsAttemptedTwice`.
* **The two percentile scripts agree before rounding but not always after**, because one of them rounds twice;
  `RoundingTwiceIff`, `ReportsAgreeIff`, `RoundingTwiceCanDiffer`.
* **A resource report can be `MEASURED` with a sample count of zero**; `MeasuredWithoutPairIff`, `MeasuredWithoutAPair`.
* **The screenshot check divides by zero** on a last close of zero or on an entry of zero under a positive close, and
  levels can merge when shown in cents; `FailsIff`, `DivisionByZeroReached`, `ShownInOrderIff`, `ShownAsZeroIff`,
  `SubCentCollapses`.
* **Greedy report matching can miss a pairing**, exactly where two smoke reports share an artifact hash and name
  different commits; `GreedyIsCompleteIff`, `GreedyCanMiss`.
* **An update whose last delete fails has installed the new app and blocks every further one**, since what is left of the
  old app counts as an unfinished update; `FailedDeleteBlocks`.
* **A repeated order id breaks the id index**; `IndexBreaksIff`, `RepeatedNumberBreaksIndex`.
* **The delete route turns a lost revision race into an unhandled error**: unlike the close route it does not catch the
  conflict; `UnhandledIff`, `UnhandledReached`.

## Assumptions

* `put_nowait`, `get_nowait`, `Event.set`, attribute reads and one rename are atomic; lock bodies are one step.
* The event loop is that of CPython's `asyncio`: a queued `loop.stop` ends the current `run_until_complete` or
  `run_forever` at the end of the turn in which it runs; `run_until_complete` raises if its task is not done by then,
  returns normally if it is, and leaves other tasks pending on the loop for the next session.  A task that finishes
  queues a done-callback, which stops the loop in the following turn; when a stop ends the session in the very turn of
  the task's last step, that callback stays queued and ends the next session in its first turn.
* A wait that has run out looks at its future once more, as `concurrent.futures` does, so a finished or cancelled future
  decides the answer.
* A startup that fails does so with an exception other than `SystemExit` and `KeyboardInterrupt`, which `asyncio` lets
  through in the middle of a turn.
* All sends to the push queue run on the backend loop's thread, as the broadcast loop does, so there is one producer.
* `uuid4` never repeats an id.
* `record_and_sync_trade` with an expected revision is one atomic compare-and-set, which the `BEGIN IMMEDIATE`
  transaction in `sqlite_driver.py` provides.
* Prices, sizes and times are reals; `round` is exact rounding half to even.
* The browser does not end the extension's service worker in the middle of a run.
* What the outside world decides (a step that raises, a copy that stops half-way, a failing scan, a clock) is an event,
  a parameter or a nondeterministic choice.

## Model

| member | source | states |
|---|---|---|
| BackendRuntime.InvRun | backend/desktop/runtime.py:70-147 | over every interleaving of callers, stops and the loop thread: a future is in the table exactly while its caller waits on it, and whatever a stop call has snapshotted is cancelled, about to be, or was in the gap |
| BackendRuntime.LifespanExitsOnce | backend/desktop/runtime.py:70-116 | however stops interrupt the loop, the lifespan's exit is begun at most once, only after an enter, and finished at most once |
| BackendRuntime.LeftOpenIff | backend/desktop/runtime.py:73-116 | a closed loop has an entered lifespan whose exit never finished if and only if the startup entered after the shutdown had looked, a stop closed the loop inside the exit, or a fatal exception escaped the exit |
| BackendRuntime.OneStopExits | backend/desktop/runtime.py:84-92 | stopped at most once, by a request that did not break off the startup, the runtime finishes the exit before its loop closes, unless a fatal exception escapes the exit |
| BackendRuntime.StopDuringStartup | backend/desktop/runtime.py:73-83 | a run in which a stop interrupts the startup, and the lifespan is entered after the shutdown looked and never exited |
| BackendRuntime.BrokenStartupGoesOn | backend/desktop/runtime.py:73-79 | a startup that was broken off can still enter the lifespan, or fail, in the session of the shutdown |
| BackendRuntime.StopDuringExit | backend/desktop/runtime.py:86-92 | a run in which a second stop closes the loop inside the exit |
| BackendRuntime.ComesDownIff | backend/desktop/runtime.py:84-92 | in any reachable state a running loop can come down without a further stop request if and only if a stop is still queued or the done-callback of the startup's wait was left over |
| BackendRuntime.SwallowedIff | backend/desktop/runtime.py:73-86 | when the session of a finished startup ends, however many stops are queued, the loop is left unable to come down without a further request if and only if the session ended in the callback's turn and all of them ran in it |
| BackendRuntime.StopSwallowed | backend/desktop/runtime.py:73-86 | a run in which a stop runs in the callback's turn: the loop runs on, the stop() call waits, callers are refused, and only a further request can end it |
| BackendRuntime.StopCarriedOver | backend/desktop/runtime.py:73-86 | a run in which the same stop runs one turn earlier, and the callback it leaves behind ends the next session |
| BackendRuntime.StopsCleanly | backend/desktop/runtime.py:69-130 | a run in which a runtime is started and stopped once: the lifespan is entered and exited, the loop closes, and the stop() call returns |
| BackendRuntime.FailedStartupCloses | backend/desktop/runtime.py:75-83 | a startup that fails closes the loop with nothing entered and nothing exited |
| BackendRuntime.InflightEmptyWhenAllLeft | backend/desktop/runtime.py:139-147 | when all callers have returned or raised, no future is left in the table |
| BackendRuntime.OnlyTheGapIsMissed | backend/desktop/runtime.py:118-130 | after a stop call's cancel loop, every unfinished future belongs to a caller that was between check and insert at its snapshot |
| BackendRuntime.SnapshotReleased | backend/desktop/runtime.py:118-130 | every future in the table at the snapshot stops being pending, whatever other threads do meanwhile |
| BackendRuntime.ReleasedRaises | backend/desktop/runtime.py:127-143 | in every run, a caller whose future a stop call cancels while it waits can leave only with that cancellation, not with a result and not by its timeout |
| BackendRuntime.AnswersAreTrue | backend/desktop/runtime.py:132-147 | in every run, whoever is answered with a result has a finished future, whoever with the cancellation a cancelled one, whoever timed out leaves none unfinished, and whoever was turned away has none, with the runtime stopping or its loop closed |
| BackendRuntime.LateCallersRefused | backend/desktop/runtime.py:133-138 | a caller whose first check follows the stopping flag can only end in RuntimeStopped |
| BackendRuntime.StrandedUntilTimeout | backend/desktop/runtime.py:139-147 | without its own timeout or a cancel by a further stop call, a stranded caller waits on through any continuation of the run |
| BackendRuntime.StrandedIffInTheGap | backend/desktop/runtime.py:118-147 | at a snapshot, a caller can still end up waiting on the dead loop if and only if it is in the gap with an unfinished future |
| BackendRuntime.CallerCanBeStranded | backend/desktop/runtime.py:118-147 | a run that leaves a caller waiting on the dead loop |
| BackendRuntime.ReleaseIsStepwise | backend/desktop/runtime.py:127-128 | cancelling the copied futures one at a time, in any order and with repeats, is releasing them as a whole |
| BackendRuntime.RuntimeObject.constructor | backend/desktop/runtime.py:33-47 | a fresh runtime is the machine's initial state |
| BackendRuntime.RuntimeObject.RunCoroutine | backend/desktop/runtime.py:133-147 | with only the loop thread interfering, a call is turned away without a trace, or ends with its future finished, nothing left in the table and every other future untouched |
| BackendRuntime.CallIsStepwise | backend/desktop/runtime.py:133-147 | the machine's statement-by-statement account of a whole call has the same effect |
| BackendRuntime.HandOver | backend/desktop/runtime.py:139 | handing the coroutine to the loop makes a pending future, or raises and leaves none if the loop has closed since the check |
| BackendRuntime.CallTurnedAway | backend/desktop/runtime.py:133-138 | so has its account of a call that is turned away: before the start with one error, and on a stopping, stopped or closed runtime with the other, the shared fields untouched |
| BackendRuntime.RuntimeObject.Stop | backend/desktop/runtime.py:118-130 | undisturbed, stop refuses work, releases everyone in the table and asks the loop to stop; on an unstarted or stopped runtime it does nothing; on a closed loop it raises after releasing |
| BackendRuntime.StopIsStepwise | backend/desktop/runtime.py:118-130 | the machine's statement-by-statement account of a whole stop, with the futures cancelled in any order, has the same effect |
| BackendRuntime.StopWaits | backend/desktop/runtime.py:130 | a stop call that has asked leaves when the loop thread is done or its time runs out, changing nothing else |
| BackendRuntime.StopSkips | backend/desktop/runtime.py:119-120 | on a runtime that was never started or is stopped already it changes nothing |
| EvidenceJobs.TableBounded | backend/desktop/bridge.py:335-378 | over every interleaving at most four jobs are kept, and none after the close |
| EvidenceJobs.ClosedAbsorbs | backend/desktop/bridge.py:414-425 | after the close no later event reopens the bridge, fills the table or submits a job |
| EvidenceJobs.LeavesOnly | backend/desktop/bridge.py:339-341 | a job leaves the table only by the close, by a poll that saw it finished, or by a sweep that found it finished and expired |
| EvidenceJobs.FullIffFourKept | backend/desktop/bridge.py:339-343 | in any reachable state a start is refused as full exactly when the bridge is open and holds four jobs, each unfinished or within its time to live |
| EvidenceJobs.ExpiredNeverBlock | backend/desktop/bridge.py:339-378 | a table of finished and expired jobs never blocks a start: the new job is queued and is alone |
| EvidenceJobs.StartAnswers | backend/desktop/bridge.py:336-378 | in any reachable state, which answer a start gives: closed bridge, four jobs kept, adapter not configured, pool that cannot be created or is broken, in this order, and queued in every other case |
| EvidenceJobs.StartStores | backend/desktop/bridge.py:339-378 | and what it leaves: the kept jobs under their times, the new one exactly if it was queued, and the pool once created |
| EvidenceJobs.KeptForFiveMinutes | backend/desktop/bridge.py:339-341 | a finished job is still in the table after a start whose caller read the clock up to 300 seconds after it was queued, and no longer |
| EvidenceJobs.NeverComesBack | backend/desktop/bridge.py:357-412 | a job that left the table never returns |
| EvidenceJobs.DeliveredIsDone | backend/desktop/bridge.py:392-412 | a poll hands out a result only for a future that finished, and a failure only for one that was cancelled |
| EvidenceJobs.PollAnswers | backend/desktop/bridge.py:389-412 | how an undisturbed poll is answered from any reachable state: not found, pending, or what the future holds, with the job gone |
| EvidenceJobs.CloseCancelsAll | backend/desktop/bridge.py:414-425 | the first close empties the table and cancels exactly the jobs it held that were not running, in any order |
| EvidenceJobs.SecondDeliveryIff | backend/desktop/bridge.py:392-412 | when one poll removes a job, another poll of it can still deliver if and only if it had already looked it up |
| EvidenceJobs.DeliveredTwice | backend/desktop/bridge.py:392-412 | a run in which two polls both get the result of one job |
| EvidenceJobs.JobTable.Sweep | backend/desktop/bridge.py:339-341 | the loop drops exactly the finished and expired jobs |
| EvidenceJobs.JobTable.StartSection | backend/desktop/bridge.py:336-378 | answer and new table of the locked part, for every configuration and pool failure |
| EvidenceJobs.JobTable.Poll | backend/desktop/bridge.py:392-412 | undisturbed, a poll answers not found, pending, or delivers and removes exactly that job |
| EvidenceJobs.JobTable.Close | backend/desktop/bridge.py:414-425 | the first close empties the table and cancels what it held except running jobs, and nothing else; later ones do nothing |
| ShellShutdown.CleanupOnce | backend/desktop_main.py:154-176 | for any set of concurrent callers one is inside at a time, the body finishes at most once, and has finished before any caller returns normally |
| ShellShutdown.GivesUpIff | backend/desktop_main.py:165-166 | a caller raises at the lock, changing nothing else, exactly when its wait runs out while another is inside |
| ShellShutdown.StepsOnceIffNothingEscapes | backend/desktop_main.py:165-190 | the log of a finished cleanup ends with push, gateway, bridge and runtime, and is only that if and only if no fatal exception escaped a step |
| ShellShutdown.NothingSkipped | backend/desktop_main.py:179-190 | while nothing escapes, the steps attempted are a prefix of push, gateway, bridge, runtime |
| ShellShutdown.GatewayBeforeRuntime | backend/desktop_main.py:181-186 | in every run, whatever escapes, the runtime is stopped only right after push, gateway and bridge, so the gateway can still use it |
| ShellShutdown.CleanupInOrder | backend/desktop_main.py:181-186 | when nothing escapes, all four steps are attempted in this order and the parts that exist are stopped in it |
| ShellShutdown.StepsAttemptedTwice | backend/desktop_main.py:165-190 | a run in which a fatal exception escapes the second step and the next caller attempts the first two again |
| ShellShutdown.CallRun | backend/desktop_main.py:165-190 | the machine on one undisturbed call: steps are attempted up to the first fatal exception, and the flag is set and the call returns exactly if there is none |
| ShellShutdown.BegunIsStoppedOnce | backend/desktop_main.py:179-186 | for every partially built context the cleanup's list stops each of its parts once, no part it lacks, and the runtime last |
| ShellShutdown.Shell.StopResources | backend/desktop_main.py:179-190 | whatever each step raises, the steps up to the first fatal exception are attempted in order and the present parts among them stopped |
| ShellShutdown.Shell.Shutdown | backend/desktop_main.py:165-176 | a whole call on the object attempts and sets the flag as the machine's account of an undisturbed caller says; after the flag it does nothing |
| ShellShutdown.Shell.Build | backend/desktop_main.py:134-151 | whichever statement raises, what was begun by then is stopped, each part once and no other, up to a fatal exception in the cleanup; without a raise every part is begun and none stopped |
| PushQueue.QueueIsFreshestRun | backend/desktop/push.py:34-45 | at every instant the queue is a gap-free run of at most 5000 messages ending in the newest, and the drainer has taken messages in order |
| PushQueue.Conserved | backend/desktop/push.py:34-80 | every message is in exactly one of queue, taken and dropped, and the counts add up |
| PushQueue.NewestNeverDropped | backend/desktop/push.py:37-45 | a message is dropped only after a newer one was sent, and is older than all still queued |
| PushQueue.SendAlone | backend/desktop/push.py:34-45 | an undisturbed send joins the queue, dropping the oldest message exactly when 5000 wait |
| PushQueue.HeldMessageGetsIn | backend/desktop/push.py:37-45 | a send that found the queue full always gets its message in, whatever the drainer does meanwhile |
| PushQueue.DrainAlone | backend/desktop/push.py:72-80 | an undisturbed drain flushes the oldest messages as one batch, 500 or all there are |
| PushQueue.FlushesIff | backend/desktop/push.py:72-86 | a batch is flushed exactly when it holds 500 messages or the queue has run empty |
| PushQueue.Channel.SendText | backend/desktop/push.py:34-45 | the new message always gets in, at the cost of the oldest when full |
| PushQueue.Channel.Drain | backend/desktop/push.py:72-80 | a drain takes the oldest messages up to one batch and leaves the rest |
| PushQueue.Channel.GetNowait | backend/desktop/push.py:39 | takes the oldest, or nothing from an empty queue |
| JsonFraming.BatchRoundTrip | backend/desktop/push.py:87-90 | a depth- and string-aware reader splits the batch back into exactly the drained documents, for any complete documents |
| JsonFraming.DumpsIsComplete | backend/app/websocket/connection_manager.py:62 | every JSON value, however nested and whatever its strings hold, is written as one complete document |
| JsonFraming.FlushedValuesComeBack | backend/desktop/push.py:84-90 | flushing any values and splitting the batch gives the same documents, and the batch is itself complete (array and string syntax of RFC 8259, sections 5 and 7) |
| JsonFraming.BatchIsAscii | backend/desktop/push.py:85-87 | whatever is broadcast, the batch holds printable ASCII only, so no raw line break |
| JsonFraming.SeparatorsOf | backend/app/websocket/connection_manager.py:62 | comma and blank between items, colon and blank in fields, and a bare comma between the documents of a batch |
| JsonFraming.ShortEscapes | backend/app/websocket/connection_manager.py:62 | the escapes with a letter (section 7 of RFC 8259) |
| JsonFraming.PrintableStays | backend/app/websocket/connection_manager.py:62 | printable ASCII is written as it is, but for quote and backslash |
| JsonFraming.NumberedEscapes | backend/app/websocket/connection_manager.py:62 | every other character of the basic plane by its code, in four lower-case digits |
| JsonFraming.PairedEscape | backend/app/websocket/connection_manager.py:62 | one outside it by a surrogate pair |
| JsonReading.ValueComesBack | backend/app/websocket/connection_manager.py:62 | reading a written value in front of any text that does not run on a number gives the value and leaves that text |
| JsonReading.DumpsComesBack | backend/app/websocket/connection_manager.py:62 | reading what is written gives the value back, for every value, escapes and surrogate pairs included (RFC 8259, sections 2 to 7) |
| JsonReading.DumpsIsInjective | backend/app/websocket/connection_manager.py:62 | no two values are written alike |
| JsonReading.BatchComesBack | backend/desktop/push.py:87-90 | the page reads a batch as the array of exactly the values that were broadcast, in order, none of them merged or split |
| AppPromotion.OneCompleteApp | scripts/run_n04_macos_update_uninstall_audit.py:266-290 | at every instant of every run, crashes included, a complete old app is at the active or backup name or a complete new one is active |
| AppPromotion.CallsEndExactly | scripts/run_n04_macos_update_uninstall_audit.py:266-298 | a completed rollback restores the whole disk; a success changes the active app and nothing else and leaves no staging or backup |
| AppPromotion.UndisturbedCalls | scripts/run_n04_macos_update_uninstall_audit.py:266-298 | on every disk that admits it an update that nothing disturbs succeeds with the new app active; interrupted after any phase, with nothing wrong in the recovery, it rolls back |
| AppPromotion.InterruptionsThenSuccess | scripts/run_n04_macos_update_uninstall_audit.py:496-516 | any number of refused or interrupted updates followed by a success ends with the new app and the rest of the disk as before the first |
| AppPromotion.DataUntouched | scripts/run_n04_macos_update_uninstall_audit.py:266-290 | no run touches anything but the three names |
| AppPromotion.RefusesIffUnsafe | scripts/run_n04_macos_update_uninstall_audit.py:258-263 | once its arguments are in order, a call refuses exactly on a missing or unsafe active app, on leftovers or on a new app that is the active one, and changes nothing |
| AppPromotion.FailedDeleteBlocks | scripts/run_n04_macos_update_uninstall_audit.py:260-290 | if the last delete stops half-way, by an exception or with the process, the new app is active, the rest of the old one stays hidden, and every further update is refused |
| AppPromotion.BreaksOff | scripts/run_n04_macos_update_uninstall_audit.py:278-290 | an exception before the last delete starts the recovery, one inside either ends the call where it stands, as the end of the process does at any time |
| AppPromotion.CrashIsNoticed | scripts/run_n04_macos_update_uninstall_audit.py:255-290 | after a crash at any instant, a later call is admitted only on the disk from before or on the finished update |
| AppPromotion.InstallRoot.CopyTree | scripts/run_n04_macos_update_uninstall_audit.py:267 | the copy succeeds whole or leaves a partial staging folder it made itself |
| AppPromotion.InstallRoot.Replace | scripts/run_n04_macos_update_uninstall_audit.py:271-275 | a rename happens entirely or not at all |
| AppPromotion.InstallRoot.CleanupTree | scripts/run_n04_macos_update_uninstall_audit.py:223-229 | the entry is removed, or a folder is left partly deleted at the same name |
| AppPromotion.InstallRoot.Recover | scripts/run_n04_macos_update_uninstall_audit.py:282-287 | recovery puts the backup back and removes the staging folder; a raise inside never loses the old app |
| AppPromotion.InstallRoot.Promote | scripts/run_n04_macos_update_uninstall_audit.py:255-298 | with any operations failing: refused or rolled back means unchanged, success means exactly the new app, otherwise a complete app is still there; with none failing it succeeds, unless interrupted or blocked by a leftover link |
| AppPromotion.InstallRoot.RunAudit | scripts/run_n04_macos_update_uninstall_audit.py:496-516 | three interrupted updates and a full one, all as expected, amount to replacing the active app; on a disk without leftovers the audit passes unless an operation fails |
| TradeLifecycle.HistoryIsLawful | backend/app/api/endpoints.py:608-723 | over any interleaving of clients the revision rises by one per accepted write, terms never change, and status only goes from open to closed and to canceled, a cancel keeping the recorded outcome |
| TradeLifecycle.NoLostUpdate | backend/app/db/sqlite_driver.py:406-432 | each accepted write was computed from exactly the row it replaced |
| TradeLifecycle.OneWinnerPerRevision | backend/app/db/sqlite_driver.py:412-419 | of the clients that read one revision at most one is accepted |
| TradeLifecycle.AcceptedIsRecorded | backend/app/api/endpoints.py:681-690 | over every interleaving, each accepted close has stored its own exit price and commission, status closed, and the money they make in plain arithmetic; each accepted cancel no more than the status |
| TradeLifecycle.TurnedAwayIff | backend/app/api/endpoints.py:614-640 | which requests end at their read, and with which answer; all others go on to their write |
| TradeLifecycle.AcceptedIffUnchanged | backend/app/db/sqlite_driver.py:412-432 | a pending write is accepted if and only if the stored row is still the one the client read |
| TradeLifecycle.UnhandledIff | backend/app/api/endpoints.py:691-722 | a pending write ends in an unhandled error if and only if it is a cancel and the stored row is no longer the one read; a close there gets a conflict |
| TradeLifecycle.UnhandledReached | backend/app/api/endpoints.py:703-722 | from every open trade a close and a cancel that both read it reach that error |
| TradeLifecycle.ClosedOutcomeIsFinal | backend/app/api/endpoints.py:613-620 | once closed or canceled, exit price, money and commission never change through these routes |
| TradeLifecycle.TradeStore.Serve | backend/app/api/endpoints.py:609-701 | a whole request with another writer in between: refused for the stated reasons, overtaken without a trace, or recorded with what it asked for |
| Rounding.NearestEven | backend/app/api/endpoints.py:685-686 | rounding is to the nearest multiple, a tie to the even one |
| TradeMoney.ClosedTwoWays | backend/app/api/endpoints.py:471-493 | recording a trade as closed gives the same profit and R as closing it later without commission, in every unit basis, side, stop and exit |
| TradeMoney.NotionalIsDollars | backend/app/api/endpoints.py:442-450 | sizing by a dollar amount in base units earns what the same dollar position earns |
| TradeMoney.StoppedOutIsMinusOne | backend/app/api/endpoints.py:661-678 | closing at a losing-side stop without commission is exactly minus one R in both monetary bases |
| TradeMoney.MoneyIffUnitKnown | backend/app/core/position_math.py:133-150 | closing a trade gives a profit figure exactly if its quantity unit was declared or the backend's catalog vouches for the symbol, and an R figure exactly with a losing-side stop besides |
| TradeMoney.CloseInFigures | backend/app/api/endpoints.py:655-678 | profit is the move in the trade's favour times the size less the commission, R is that over the amount at the stop, both rounded to cents, in every unit and on both sides |
| TradeMoney.DeclaredUnitPays | backend/app/core/position_math.py:133-150 | the unit a trade is settled in: as declared, base units where only the catalog vouches, none otherwise |
| TradeMoney.StoredSize | backend/app/api/endpoints.py:441-449 | a dollar amount is stored as the quantity worth it at the entry, unless declared in dollars |
| BridgeReconnect.NeverStuck | browser-extension/background.js:27-111 | in every reachable state a timer is armed, a storage read is outstanding or the current socket can still fire; at most one timer is armed and the variable names it |
| BridgeReconnect.ComesBack | browser-extension/background.js:50-112 | from any reachable state, after a loss of the current socket or a port change, the timer, the read and the new socket leave the worker connected on that socket at the configured port, or 8765 if it is out of range, with no timer left |
| BridgeReconnect.PortChangeKeepsIff | browser-extension/background.js:104-105 | a port change leaves an open connection alone exactly when it is on that port |
| BridgeReconnect.PeerCloseIsSilent | browser-extension/background.js:83-87 | until its close event fires, a close by the other end changes nothing in the worker |
| BridgeReconnect.FailedConstructionWaits | browser-extension/background.js:62-67 | a socket that cannot be constructed leaves one timer armed |
| BridgeReconnect.StaleSocketsIgnored | browser-extension/background.js:71-95 | once a socket is not current, leaving out all its later events gives the same worker, timers, reads and other sockets at the end of any run |
| BridgeReconnect.SingleStaysIff | browser-extension/background.js:102-111 | a single attempt under way stays single if and only if the step is not a port change during an outstanding read |
| BridgeReconnect.TruthfulStaysIff | browser-extension/background.js:51-76 | `isConnected` stays truthful if and only if the step does not install a new socket over a connected one |
| BridgeReconnect.OneAttemptWithoutOverlap | browser-extension/background.js:50-111 | without such port changes there is always exactly one attempt, and `isConnected` implies an open current socket |
| BridgeReconnect.WholeRunIff | browser-extension/background.js:50-111 | over a whole run there is one attempt at every instant if and only if no port change is acted on during an outstanding read, and the flag is truthful throughout if and only if no answer displaces a connected socket |
| BridgeReconnect.OverlapLeavesStaleFlag | browser-extension/background.js:50-111 | a run in which two attempts overlap and the flag is left stale |
| BridgeReconnect.Worker.OnStorage | browser-extension/background.js:51-69 | the machine's step for the storage answer |
| BridgeReconnect.Worker.OnError | browser-extension/background.js:89-95 | the machine's step for a failed socket |
| BridgeReconnect.Worker.OnClose | browser-extension/background.js:82-87 | the machine's step for a closed socket |
| BridgeReconnect.Worker.OnPortChanged | browser-extension/background.js:102-111 | the machine's step for a changed port |
| BridgeReconnect.Worker.Replay | browser-extension/background.js:27-111 | any sequence of handler calls on one worker is a run of the machine, so its variables are never stuck |
| TreeDigest.SortedUnique | scripts/build_provenance.py:87 | the order in which the file system lists a tree does not matter |
| TreeDigest.LessIff | scripts/build_provenance.py:85 | the order is by the first differing byte, a path before its continuations |
| TreeDigest.StreamInBytes | scripts/build_provenance.py:85-99 | the stream is, path by path, the word file or symlink, the path and the content or target, each with a NUL behind it |
| TreeDigest.StreamRoundTrip | scripts/build_provenance.py:85-99 | a decoder reads the stream back into the path-to-content and path-to-target map whenever no file holds a NUL byte |
| TreeDigest.SameStreamIffSameTree | scripts/run_n04_macos_update_uninstall_audit.py:62-79 | for such trees equal streams mean equal trees up to directories, and conversely |
| TreeDigest.SharedIff | scripts/run_n03_macos_clean_profile_audit.py:63-76 | for every tree: it shares its stream with a different one if and only if a file precedes another entry, or its last entry is a file with a NUL followed by what reads as later entries |
| TreeDigest.StreamShared | scripts/build_provenance.py:85-99 | a tree of two one-byte files that does |
| TreeDigest.Digest.UpdateFile | scripts/build_provenance.py:96-98 | reading in chunks feeds exactly the content |
| TreeDigest.Digest.HashNode | scripts/build_provenance.py:88-99 | one child feeds type, path and body, each ended by a NUL |
| TreeDigest.Digest.HashTree | scripts/build_provenance.py:85-99 | the loop over the sorted children feeds exactly the stream of the tree |
| OrderBook.MatchSide | backend/app/services/matching/order_book.py:103-131 | the nested loops over levels and orders give the same fills, remainder and survivors as consuming one price-time queue |
| OrderBook.MatchLevel | backend/app/services/matching/order_book.py:110-128 | one level serves the incoming order in arrival order until either is exhausted |
| OrderBook.CanFillCompletely | backend/app/services/matching/order_book.py:231-248 | adding level totals best first and stopping early decides whether the queue within the limit holds the size |
| OrderBook.JoinedIsInsert | backend/app/services/matching/order_book.py:187-194 | appending to the level of a price is inserting behind all orders of the same or a better price |
| OrderBook.ConsumeConserves | backend/app/services/matching/order_book.py:111-124 | fills plus remainder make the order's size, and the volume that leaves the book is the volume filled |
| OrderBook.FillsInPriority | backend/app/services/matching/order_book.py:104-128 | fills go to the first orders of the queue, in order, within the limit, each exhausted before the next is touched |
| OrderBook.FilledIffAvailable | backend/app/services/matching/order_book.py:104-131 | the whole size is filled exactly when the volume within the limit suffices |
| OrderBook.ConsumeIds | backend/app/services/matching/order_book.py:126-128 | exhausted orders leave from the front and no others leave |
| OrderBook.AddKeepsBook | backend/app/services/matching/order_book.py:58-203 | every order, of any kind, price and size, leaves both sides in price-time order with positive sizes and the best bid below the best ask |
| OrderBook.ReportTells | backend/app/services/matching/order_book.py:163-203 | for every order fills plus remainder make the size, the opposite side loses what was filled, and the own side gains the remainder exactly when it rests |
| OrderBook.RestsAtItsPrice | backend/app/services/matching/order_book.py:176-194 | an order that comes to rest does so at its own price, with what was not filled, behind all orders as good or better and before all others |
| OrderBook.LimitRespected | backend/app/services/matching/order_book.py:103-161 | no fill is beyond the order's price, and with something left over nothing within it remains in the book |
| OrderBook.FillsAreTheFirst | backend/app/services/matching/order_book.py:108-128 | the fills are with the first orders of the other side, at their ids and prices, all but the last for the whole order |
| OrderBook.StatusTells | backend/app/services/matching/order_book.py:165-203 | filled means nothing left, new means no fill, partly filled means some; immediate-or-cancel and market orders never rest |
| OrderBook.FillOrKill | backend/app/services/matching/order_book.py:89-99 | a fill-or-kill order is filled whole or leaves the book unchanged, exactly according to the volume in reach |
| OrderBook.PostOnlyNeverTakes | backend/app/services/matching/order_book.py:77-87 | a post-only order takes nothing, and is turned away exactly when it would |
| OrderBook.MatchingKeepsExact | backend/app/services/matching/order_book.py:126-128 | matching keeps the id index holding exactly the resting ids, each once |
| OrderBook.IndexBreaksIff | backend/app/services/matching/order_book.py:77-194 | an order breaks the index if and only if its kind may rest, the volume within its reach is less than its size, and its id already rests on its own side or beyond its reach |
| OrderBook.LimitOrderBook.AddOrder | backend/app/services/matching/order_book.py:58-203 | the object's two level maps and index end up as the queue-level specification says, with the same report |
| OrderBook.LimitOrderBook.Match | backend/app/services/matching/order_book.py:101-161 | both mirrored matching branches are one match in ranks |
| OrderBook.LimitOrderBook.Rest | backend/app/services/matching/order_book.py:176-194 | the remainder rests behind its price level and enters the index |
| StressBatches.CutKeepsTheBest | scripts/run_stress_benchmark.py:167-180 | pruning keeps a prefix of the priority queue, at most n levels and exactly n if anything goes, and all that goes is on a worse price |
| StressBatches.PruneKeeps | scripts/run_stress_benchmark.py:167-180 | pruning leaves best bid and ask alone, the book in order and uncrossed, and the index exact |
| StressBatches.PruneSide | scripts/run_stress_benchmark.py:169-174 | popping every level past the n best, with its ids, is that pruning |
| StressBatches.RowsInOrder | scripts/run_stress_benchmark.py:182-202 | after any batches, committed blocks followed by the buffer are all ticks in arrival order; under 2500 wait and every block has at least 2500 |
| StressBatches.BookStaysBounded | scripts/run_stress_benchmark.py:141-180 | after any batches the book is ordered, uncrossed and at most 250 levels deep per side |
| StressBatches.FedInOrder | scripts/run_stress_benchmark.py:141-159 | the ticks of a batch reach the book in the order of the batch |
| StressBatches.BatchesInOrder | scripts/run_stress_benchmark.py:137-202 | each batch is fed to the book the earlier ones left, which is then cut to 250 levels, and joins their buffer, which is inserted and emptied at 2500 rows |
| StressBatches.TradePrintTakes | scripts/run_stress_benchmark.py:152-159 | a trade print takes its size, or all there is, from the other side and leaves nothing on its own |
| StressBatches.BookUpdateRests | scripts/run_stress_benchmark.py:144-151 | a limit order of the feed that meets nothing rests at its price with its whole size under its own id |
| StressBatches.IndexStaysExact | scripts/run_stress_benchmark.py:141-180 | with distinct sequence numbers the index holds exactly the ids on the remaining levels, through any batches |
| StressBatches.RepeatedNumberBreaksIndex | scripts/run_stress_benchmark.py:144-151 | a repeated sequence number breaks it |
| StressBatches.StressRun.ProcessBatch | scripts/run_stress_benchmark.py:137-202 | one batch: book, buffer and commits as specified |
| StressBatches.StressRun.FeedBook | scripts/run_stress_benchmark.py:141-159 | the ticks reach the book one by one in order |
| StressBatches.StressRun.PruneBook | scripts/run_stress_benchmark.py:167-180 | both sides are pruned, each against the index left by the other |
| Percentiles.OnSegment | scripts/run_h07_benchmark.py:171-175 | the percentile curve is the polyline through the order statistics: it passes through every sample and never jumps |
| Percentiles.WithinSamples | scripts/run_h07_benchmark.py:161-175 | a percentile lies between the smallest and the largest sample |
| Percentiles.RisesWithPercent | scripts/run_h07_benchmark.py:171-175 | it never falls as the percent rises, across index boundaries too |
| Percentiles.EndPoints | scripts/run_h07_benchmark.py:171-175 | 0 gives the minimum and 100 the maximum |
| Percentiles.OrderDoesNotMatter | scripts/run_h07_benchmark.py:161-175 | shuffled samples give the same outcome, errors included |
| Percentiles.SameBeforeRounding | scripts/run_h07_measurement_campaign.py:42-48 | both scripts compute the same number before rounding |
| Percentiles.RoundingTwiceIff | scripts/run_h07_benchmark.py:272-274 | rounding to ten and then four places differs from rounding to four exactly when the first rounding moves the value onto a tie from the wrong side |
| Percentiles.RoundingTwiceCanDiffer | scripts/run_h07_benchmark.py:272-274 | a value on which they differ |
| Percentiles.SummariesInOrder | scripts/run_h07_measurement_campaign.py:57-62 | reported p50, p95 and p99 are in order after rounding, and within the reported minimum and maximum |
| Percentiles.SummariesReadOff | scripts/run_h07_benchmark.py:271-274 | what both reports hold: minimum, maximum, and the values 50, 95 and 99 hundredths of the way along the sorted samples |
| Percentiles.VerdictIff | scripts/run_h07_benchmark.py:243-267 | failed on any unexpected sample, measured from three samples on, and nothing without samples |
| Percentiles.PercentileRefuses | scripts/run_h07_benchmark.py:164-167 | a percentile is refused exactly without samples, then outside 0 to 100 |
| Percentiles.ReportsAgreeIff | scripts/run_h07_benchmark.py:243-277 | both reports give the same status, and the same percentile unless double rounding moved it |
| PriceLevels.Sanitize | backend/app/ai/vision_service.py:102-153 | the check, assignment by assignment, computes the specified levels, confidence and notes; the confidence floor is never reached |
| PriceLevels.ScaleIff | backend/app/ai/vision_service.py:108-122 | for positive quotes the correction applies exactly in the two bands around a factor of ten; the outer deviation test never matters |
| PriceLevels.CorrectedOnce | backend/app/ai/vision_service.py:111-122 | a corrected entry is close to the last close and is never corrected again |
| PriceLevels.FailsIff | backend/app/ai/vision_service.py:108-118 | the check divides by zero exactly on a zero close, or a zero entry under a positive close |
| PriceLevels.DivisionByZeroReached | backend/app/ai/vision_service.py:108-118 | inputs that reach each of the two divisions |
| PriceLevels.OrderedIff | backend/app/ai/vision_service.py:124-142 | the levels come out in the trade's order exactly when the entry is positive or the stop was right already |
| PriceLevels.CheckInFigures | backend/app/ai/vision_service.py:102-142 | the whole check in figures: the factor of ten in the two bands, the stop at 1.5 percent, the target at two and a half times the risk |
| PriceLevels.NotesInFigures | backend/app/ai/vision_service.py:114-152 | each correction noted, each repair at a tenth of the confidence, and a note for a check without either |
| PriceLevels.ExtractedInFigures | backend/app/ai/vision_service.py:190-205 | levels named are taken, missing ones get the usual price, the 1.5 percent stop and the two-and-a-half-fold target |
| PriceLevels.CheckedOnceIsEnough | backend/app/ai/vision_service.py:102-142 | checking twice is checking once, for all prices, and the second check has nothing to note exactly when the levels are in order |
| PriceLevels.RepairedTargetPays | backend/app/ai/vision_service.py:68-75 | a repaired target pays exactly two and a half times the risk |
| PriceLevels.ScalingKeepsRatio | backend/app/ai/vision_service.py:113-122 | a decimal-point correction does not change reward to risk |
| PriceLevels.TicketIsOrdered | backend/app/ai/vision_service.py:180-205 | a trade read with a positive entry is always ticketed in order; pure defaults pass unrepaired at a ratio of 2.5 |
| PriceLevels.ShownInOrderIff | backend/app/ai/vision_service.py:77-83 | rounding to cents never reverses the order, and keeps it strict exactly when a rounding boundary lies between neighbours |
| PriceLevels.ShownAsZeroIff | backend/app/ai/vision_service.py:77-83 | ordered positive levels are all shown as zero exactly when the largest is at most half a cent |
| PriceLevels.SubCentCollapses | backend/app/ai/vision_service.py:77-83 | a sub-cent trade is shown with all levels zero |
| DirectorySize.Measure | scripts/run_h07_packaged_benchmark.py:29-53 | the worklist ends on every tree and returns the bytes of all regular files not reached through links, or nothing exactly when the root is unusable or an entry met fails |
| DirectorySize.ScanEntries | scripts/run_h07_packaged_benchmark.py:43-52 | one directory's entries move from unread to counted or pending without loss |
| DirectorySize.TotalAgrees | scripts/run_h07_packaged_benchmark.py:29-53 | the walk's sum is the sum over all entries below the root, and fails exactly when one of them does |
| DirectorySize.DiskPeak | scripts/run_h07_packaged_benchmark.py:84-99 | the disk peak is the maximum over the samples that succeeded, and missing exactly when none did |
| DirectorySize.DiskPeakInBytes | scripts/run_h07_packaged_benchmark.py:84-99 | it is the largest size above the baseline, at least zero, and there only with a baseline and a readable size |
| DirectorySize.RssPeak | scripts/run_h07_packaged_benchmark.py:78-92 | likewise for memory |
| DirectorySize.CountsTell | scripts/run_h07_packaged_benchmark.py:91-101 | the three counts are those of the readings with memory, with disk growth, and with both |
| DirectorySize.MeasuredIff | scripts/run_h07_packaged_benchmark.py:118-134 | a report is measured exactly when some reading found memory and some reading found disk growth |
| DirectorySize.MeasuredWithoutPairIff | scripts/run_h07_packaged_benchmark.py:118-134 | and it is measured with a sample count of zero exactly when besides no reading found both |
| DirectorySize.MeasuredWithoutAPair | scripts/run_h07_packaged_benchmark.py:118-134 | a measured report whose sample count is zero |
| DirectorySize.Sampler.SampleOnce | scripts/run_h07_packaged_benchmark.py:77-99 | one sample updates peaks and counts as specified, failures included |
| EvidenceMatching.MatchReports | scripts/audit_phase0_exit.py:217-239 | the loop that removes matched smoke reports gives the specified pairing or its first fault |
| EvidenceMatching.SuccessIsAPairing | scripts/audit_phase0_exit.py:219-237 | success uses every smoke report exactly once and validates each pair |
| EvidenceMatching.SucceedsIff | scripts/audit_phase0_exit.py:219-237 | it succeeds exactly when all reports are sound and, hash by hash, name the same commits in the same order |
| EvidenceMatching.FailsAtIff | scripts/audit_phase0_exit.py:217-239 | why and at which report it fails: no smoke reports, different counts, or the first report that is no object, finds its hash used up, or is unsound or of another commit than the next with its hash |
| EvidenceMatching.SucceedsIffSameHashes | scripts/audit_phase0_exit.py:219-237 | leaving pair validation aside, it succeeds exactly when the two hash multisets are equal |
| EvidenceMatching.GreedyIsCompleteIff | scripts/audit_phase0_exit.py:221-237 | the greedy choice finds every possible pairing, for all distribution reports, if and only if no two smoke reports share a hash while naming different commits |
| EvidenceMatching.GreedyFinds | scripts/audit_phase0_exit.py:221-237 | for such smoke reports it succeeds exactly when a pairing exists |
| EvidenceMatching.GreedyCanMiss | scripts/audit_phase0_exit.py:221-237 | with a shared hash it can miss one |
| EvidenceMatching.Remove | scripts/audit_phase0_exit.py:237 | removing by value removes the very report that was found |

## Left out

- HTTP routing, the web view, subprocesses, signing, disk images, user interface, logging and argument parsing: input and output without a provable core.
- Report validators that are flat lists of field checks, and the process-kill ladder after the job table is closed: each is settled by reading one branch.
- `validate_worker`, `_run_size`, `_timed_call` and the snapshot digests of the benchmark scripts: field checks and measurement plumbing.
- SHA-256: the model stops at the bytes fed to it.
- TreeDigest.SharedIff: a tree is any map from paths to entries; that a file has no entries below it is not part of the model, and the trees it finds need not all exist on a disk.
- File modes and empty directories: they leave no trace in the digest stream and are not compared.
- Wall-clock waits: a timeout is an event that may happen at any time; the job table's clock only moves forward.
- The stores behind a trade: the evidence ledger, the replication to the analytics database and local tracking plans; a trade with a tracking plan is not modelled.
- OrderBook.LimitOrderBook.AddOrder: prices are whole cents and the index is the set of its keys, because `round(price, 2)` and the stored order objects carry nothing else the book's matching reads.
- `cancel_order`, `simulate_sweep` and the snapshots of the order book: the stress harness does not use them.
- StressBatches.StressRun.ProcessBatch: one symbol's book; with several symbols each book sees only its own ticks, while the buffer is shared, as modelled. Persona switching and latency samples are not modelled.
- DirectorySize.Sampler.SampleOnce: a sample is one step; the background thread's sample racing the final one after a join timeout is not modelled.
- DirectorySize.RssPeak: assumes memory readings are not negative, since the peak starts from zero.
- PriceLevels.Sanitize: the confidence is not rounded to two places, because the three values it takes have two places already.
- DirectorySize.Measure: a root whose own inspection raises counts as unusable; in the source the raise would reach the caller.
- AppPromotion.InstallRoot.Promote: file contents, not metadata; the digests reported at the end are not part of this method.
- Building the app and its HTTP client in the startup and closing the client in the shutdown: one outcome each, failed or not, beside the lifespan.
- JsonReading.DumpsComesBack: a number is its written token, and a string holds Unicode characters, not lone surrogates.
- AppPromotion.RefusesIffUnsafe: the argument checks before it (an existing, executable new app, a plain name, a known failure phase) are not modelled.
- BackendRuntime.RuntimeObject.Stop: the wait for the loop thread, bounded by its timeout, has no effect on the fields.
