# Models of the daemon's concurrent and algorithmic cores

The Go daemon keeps track of coding agents that run in tmux panes.  This project models its hardest parts
and proves what they promise:

* **Agent frames.**  Hook handlers of many processes change one table of agent frames, each by reading a
  row, computing a new subagent list and writing it back if `last_seen_at` has not moved
  (`Subagents`, `FrameRuns`, `FrameProofs`, `FrameTheorems`, `FrameLosses`, `FramesStore`).  Beside the
  list each frame carries a versioned session identity (`IdentityRegister`), and a bounded walk over
  parent processes decides which frames are folded into which (`Ancestry`).
* **Screen watching.**  Watches owned by identity tokens (`Prober`), and the detector whose callbacks race
  the closing of its signal channel (`Detector`).
* **The broker sweep.**  The verdict on one broker (`Decision`), the ordered kill (`KillSequence`), the
  quarantine list (`Quarantine`), any number of concurrent sweep requests over a two-level lock with abandoned
  waits (`SweepRuns`) and what their scans owe each record (`SweepScans`); the three-way inventory join that feeds it (`Inventory`, `Reconcile`).
* **The trace store.**  Normalisation and payload sharing (`TraceRecords`), transactional saves with
  pruning (`TraceStore`), and cursor paging (`Paging`).
* **Two algorithms.**  Kahn's sort (`Topo`) and base58 pairing codes (`Numerals`, `Base58`).

`Basics`, `Processes`, `Sorting` and `Decimals` hold shared vocabulary.

## How the models are built

Protocols (`FrameRuns`, `Detector`, `SweepRuns`) are state machines: each database statement, lock
operation or goroutine action is one step, `Exec` runs any sequence of them, and an event that is not
enabled has no effect, so a theorem about `Exec` speaks of every interleaving.  Everything that updates
state in place is a class or a method with loops, proved against a function.  Process tables, clocks,
fresh ids, sockets and signal delivery are parameters over which the theorems quantify.

Assumptions of the frame model: an insert creates an identity that is not there yet, and `Upsert`'s insert
and the read of the row that follows it are one step; the store does not fail; a process identity that has
died never comes back.  Nothing is assumed of the stamps: where a theorem needs them to tell versions apart,
it requires `AllSafe`, that no write carries a stamp under which another handler holds a different version of
the frame.  A stamp that is new to its frame, or that nobody else relies on at that moment, meets this
(`AllGuarded`, `FrameProofs.GuardedRunsAreSafe`), and nothing less does (`FrameProofs.NeverMistakenIff`).  In `Decision` one evaluation reads the clock once.  In
`Processes` a moment is a number of nanoseconds, with Go's saturating subtraction and wrapping negation.

## Where the code does less than its comments say

Each of these is a theorem with its exact condition or a family of runs, not a change to the model.

* `FrameLosses.ReusedStampLosesAgent`: the descendant scan attaches each child under the stamp that the row
  already carries, so a concurrent change that read the row before the attach still passes its
  compare-and-swap and overwrites it.  A living agent can end with neither a frame nor a proxy.
  None is lost while, whenever a stamp is written again, no other handler is between reading the row under
  that stamp and writing it (`FrameProofs.GuardedFoldingLosesNoAgent`; for the scan's attach
  `FrameProofs.ReusedStampIsUnheldIff` spells the guard out).  `FrameLosses.ReusedStampLosesIff` says for any
  other handler's pending write exactly when it undoes the fold.
* `FrameLosses.UnreadResetLosesAgent`, `FrameTheorems.ResetKeepsLiveIffReadable`: a session start drops a
  live proxy exactly when the start time of its process cannot be read at that moment.
* `Subagents.ReusedIdIsLost`: a subagent start that reuses the id of a native still on the list changes
  nothing, so the reset that follows drops the id although the comment promises that it survives.
* `IdentityRegister.PartialOrderMatters`: events that report only one field do not converge in every order.
* `KillSequence.KillWithoutTerm`: a KILL can be sent without a TERM, exactly when the TERM step finds no
  process group it may signal and the KILL step does.
* `KillSequence.ToleranceHasAHole`: a row started 2^63 ns or more before the record passes the one-second
  start-time tolerance.  The arithmetic allows it; no process listing produces such a row.
* `Decision.IdleExpiredExactly`: a last job stamped a second or more in the future counts as idle; the
  comment grants that only to brokers without a job.
* `Inventory.NothingIsCountedTwice`: when two state directories share a key that a process owns, the earlier
  one is in no record.
* `TraceStore.KeptExactly`: a save that reports success may evict its own record.  It keeps it exactly when
  the record and the chains that are not older than it fit both limits together; a record with more steps
  than the store may hold (`TraceStore.OversizedEvictsItself`) and a small one that is older than every chain
  of a full store (`TraceStore.OldestEvictsItself`) are accepted and gone.
* `Paging.ForwardPagesRepeat`: following a cursor without `Before` repeats the first page and stops.
* `Base58.DecodePairingCode`: a code is accepted by its characters and its value, whatever its length.

## Model

| member | source | states |
|---|---|---|
| Subagents.Find | internal/module/agent/frame_ops.go:1179-1213 | the first reference that a broker, turn or native lookup hits, or none |
| Subagents.RecordedKeepsNewest | internal/module/agent/frame_ops.go:2174-2198 | marking keeps tool-use ids distinct and at most 32, holds the new id and evicts only the oldest |
| Subagents.ApplyKeepsWellFormed | internal/module/agent/frame_ops.go:1104-1213 | every list change keeps one proxy per process, one native per id, and Delegating equivalent to non-empty ids on natives only |
| Subagents.MatchIsNotTransitive | internal/module/agent/frame_ops.go:1145-1164 | the turn-aware match is not transitive |
| Subagents.TurnCarryingStartDuplicates | internal/module/agent/frame_ops.go:1645-1651 | a start with a turn would double a broker's reference exactly when the listed one is in another turn |
| Subagents.ProxyProcsAfter | internal/module/agent/frame_ops.go:1618-1747 | which processes the proxies stand for after each change |
| Subagents.DetachTurnExact | internal/module/agent/frame_ops.go:1759-1799 | a turn detach happens iff a proxy of that process is in exactly that turn, and removes that one reference |
| Subagents.FailNativeExact | internal/module/agent/frame_ops.go:1571-1612 | a stop-failure detach happens iff the native is there, and removes exactly it |
| Subagents.ApplyChanges | internal/module/agent/frame_ops.go:1104-1130 | a handler writes unless there is nothing to change, and what it writes differs from what it read place by place exactly as its change says, for every kind of change |
| Subagents.UpsertLeavesOne | internal/module/agent/frame_ops.go:1651-1703 | after an upsert exactly one reference stands for the broker, in the new turn and freshly stamped |
| Subagents.ReusedIdIsLost | internal/module/agent/frame_ops.go:782-797 | a reused native id does not survive the reset, contrary to the comment, iff it was on the list |
| FrameProofs.CommitIsAtomic | internal/store/frames.go:549-592 | a successful compare-and-swap replaces exactly the version its caller read |
| FrameProofs.NoLostUpdate | internal/module/agent/frame_ops.go:1489-1512 | while no write carries a stamp under which another handler holds a different version, the table equals the committed writes applied whole, one at a time, in commit order |
| FrameProofs.FreshIsSafe | internal/module/agent/frame_ops.go:1492-1494 | a stamp new to its frame collides with no version any handler holds |
| FrameProofs.GuardedRunsAreSafe | internal/module/agent/frame_ops.go:1492-1494 | a run is safe if each stamp is new to its frame or relied on by no other handler when it is written |
| FrameProofs.NeverMistakenIff | internal/store/frames.go:549-592 | all along a run nobody can mistake a version iff no write carries a stamp under which another handler holds a different one |
| FrameProofs.ReusedStampIsUnheldIff | internal/module/agent/frame_ops.go:2052-2062 | for an attach under the stamp its row already carries, the guard holds iff no other call holds the version it replaces |
| FrameProofs.ReusedStampIsSafeIff | internal/module/agent/frame_ops.go:2052-2062 | a commit under the stamp its row already carries leaves nobody able to mistake the version iff it changes nothing or no other call holds the version it replaces |
| FrameProofs.CommitLosesIff | internal/store/frames.go:549-592 | a commit keeps the table equal to the one-at-a-time replay iff the row it writes is its change applied to the row it replaces |
| FrameProofs.SerialIff | internal/module/agent/frame_ops.go:1489-1512 | for any stamps, a run loses no update iff every successful commit wrote what its change makes of the row it replaced |
| FrameProofs.CommitsOnceOrNever | internal/module/agent/frame_ops.go:1489-1512 | a call that reports success committed once; one that gave up, lost its row or ran out of retries wrote nothing |
| FrameProofs.ListsStayWellFormed | internal/module/agent/frame_ops.go:1651-1703 | in every reachable table every list is well formed, whatever the stamps |
| FrameProofs.FoldDeletesNothingOwned | internal/module/agent/frame_ops.go:1955-1980 | in every safe interleaving, a row that a fold of a handler or of the sweep deletes holds no native and no live proxy at the moment it is deleted |
| FrameProofs.FoldingLosesNoAgent | internal/module/agent/frame_ops.go:2003-2084 | a process that was represented and not ended is dead or still has its frame or a proxy in its pane, the sweep's three fold branches included |
| FrameProofs.GuardedFoldingLosesNoAgent | internal/module/agent/frame_ops.go:2059-2066 | the same for runs in which the scan attaches, and retries, under a stamp already written, if no other handler relies on that stamp then |
| FrameTheorems.CommitChanges | internal/module/agent/frame_ops.go:1489-1512 | whatever landed between attempts, a committed call changes the version it replaces exactly as its change says, list and columns, and no other row |
| FrameTheorems.UpsertIsExact | internal/module/agent/frame_ops.go:1651-1703 | a committed upsert leaves the broker one reference in the new turn and touches no other reference |
| FrameTheorems.GivesUpIff | internal/module/agent/frame_ops.go:1763-1773 | a call gives up without writing iff the version it read holds nothing for it to change |
| FrameTheorems.UndisturbedCallCommits | internal/module/agent/frame_ops.go:1489-1512 | a call that holds the current row, has something to change and is left alone commits exactly its change |
| FrameTheorems.NarrowWritesKeepLists | internal/store/frames.go:482-505 | the narrow writers set their columns and leave the list, the frame id and every other row alone |
| FrameTheorems.BaselineIsEntry | internal/module/agent/frame_ops.go:792-797 | a reset's baseline is the set of natives its row held when the handler first read it |
| FrameTheorems.LiveWasVerified | internal/module/agent/frame_ops.go:799-814 | the processes a reset keeps were verified alive in some state of the run |
| FrameTheorems.SessionStartMerge | internal/module/agent/frame_ops.go:762-870 | the committed list is, in order, the replaced version's verified proxies and natives absent at entry, whatever landed between attempts |
| FrameTheorems.ResetKeepsLiveIffReadable | internal/module/agent/frame_ops.go:806-813 | a reset keeps a live proxy iff the start time of its process could be read |
| FrameTheorems.TurnStopIsExact | internal/module/agent/frame_ops.go:1420-1445 | a committed turn Stop removes one proxy of exactly its turn from the version it replaces and changes nothing else |
| FrameTheorems.LateTurnStopGivesUp | internal/module/agent/frame_ops.go:1770-1773 | a Stop gives up iff the version it read has no proxy of its process in its turn |
| FrameTheorems.StopFailureIsOneWrite | internal/module/agent/frame_ops.go:1578-1612 | a committed stop failure removed the native and set the status in one write |
| FrameLosses.ReusedStampLosesAgent | internal/module/agent/frame_ops.go:2052-2062 | for every two frames of one pane, a run in which the scan's reused stamp loses a living agent |
| FrameLosses.ReusedStampLosesIff | internal/module/agent/frame_ops.go:2052-2066 | from any safe run: after a scan's attach under the row's own stamp, its delete and another handler's pending write, the child is still shown iff that handler did not hold the replaced version or wrote its proxy |
| FrameLosses.UnreadResetLosesAgent | internal/module/agent/frame_ops.go:806-811 | for every two frames of one pane, a run in which one unreadable start time loses a living agent |
| FramesStore.FramesStore.GetByIdentity | internal/store/frames.go:283-299 | the row of a pane, pid and start time, or none |
| FramesStore.FramesStore.UpsertIfUnchanged | internal/store/frames.go:549-592 | replaces the row iff frame id and stamp are as expected, and nothing otherwise |
| FramesStore.FramesStore.DeleteIfUnchanged | internal/store/frames.go:361-371 | deletes the row iff frame id and stamp are as expected, and nothing otherwise |
| FramesStore.OneRound | internal/module/agent/frame_ops.go:1491-1510 | one attempt under interference commits whole, ends cleanly, or leaves a truthful fresh copy |
| FramesStore.MutateWithRetry | internal/module/agent/frame_ops.go:1489-1512 | under any interference with fresh stamps the loop commits its change at one moment to the row as it then is, or writes nothing; it gives up only if an attempt held nothing to change, the row is gone, or all three attempts were beaten to it |
| IdentityRegister.HighestVersionWins | internal/store/frames.go:426-461 | events with both fields, in any order with any retries and over any row, end in the highest version |
| IdentityRegister.DeliveryOrderIsIrrelevant | internal/store/frames.go:426-461 | two delivery orders of the same full events end in the same row, stale events included |
| IdentityRegister.FieldsNeverGoBack | internal/store/frames.go:426-461 | no event, partial or not, lowers the version or replaces a value by an older one |
| IdentityRegister.PartialOrderMatters | internal/store/frames.go:426-461 | two events commute iff the newer reports every field the older would change |
| IdentityRegister.Register.constructor | internal/store/agent_event.go:169-189 | after a restart the counter is the largest stored version |
| IdentityRegister.Register.NextIdentitySeq | internal/store/frames.go:64-66 | every new number is above every stored version |
| IdentityRegister.Register.UpdateSessionIdentity | internal/store/frames.go:426-473 | writes the reported fields iff the row's version is not larger, and says why when it does not |
| Ancestry.FindByPanePID | internal/store/frames.go:301-319 | the newest frame of the pane with that pid |
| Ancestry.WalkPaneAncestry | internal/module/agent/ancestor.go:95-171 | the walk's verdict and frame, which the CheckPane option does not change; the option reports exactly whether the pane's process was visited |
| Ancestry.PidIsAncestorOfWithCap | internal/module/agent/frame_ops.go:1921-1937 | true iff the pid is an ancestor within the cap |
| Ancestry.WalkExactly | internal/module/agent/ancestor.go:95-171 | Root iff an init process is reached within the cap past no owning process; a frame iff a live owner is, the nearest one, with the verdict its type gives |
| Ancestry.AboveExactly | internal/module/agent/frame_ops.go:1921-1937 | the check holds iff the ancestor is reached within the cap past no init process and no self-parent, and says how far up |
| Ancestry.WalkImpliesCheck | internal/module/agent/ancestor.go:180-190 | a frame returned for a sender is live, matched, and passes the downward check at the same cap |
| Ancestry.CheckImpliesWalk | internal/module/agent/ancestor.go:95-171 | if the check holds for a live matched frame the walk never answers Root and finds nothing further away |
| Prober.Prober.Watch | internal/agent/probe/activity.go:70-105 | cancels the target's watch and installs a fresh one; refuses both line modes without touching anything |
| Prober.Prober.StopWatch | internal/agent/probe/activity.go:112-119 | cancels whatever watch the target has |
| Prober.Prober.StopWatchOwned | internal/agent/probe/activity.go:134-147 | cancels the target's watch iff the handle still owns it |
| Prober.Prober.StopAllWatches | internal/agent/probe/activity.go:150-157 | cancels exactly the installed watches |
| Prober.AlwaysSound | internal/agent/probe/activity.go:70-157 | after any calls each watch is installed for one target or cancelled, never both |
| Prober.OwnershipEndsForGood | internal/agent/probe/activity.go:134-147 | once cancelled, a handle never owns its target again |
| Prober.OwnedStopSparesOthers | internal/agent/probe/activity.go:121-147 | a stop by handle never cancels another call's watch |
| Prober.Prober.Cleanup | internal/agent/probe/activity.go:233-239 | a loop's deferred clean-up drops its own entry iff that is still installed, and nothing once its watch is cancelled |
| Prober.CleanupFindsNothing | internal/agent/probe/activity.go:233-239 | the clean-up of a cancelled loop removes no entry, so a replacement survives |
| Prober.WatchLoop | internal/agent/probe/activity.go:225-313 | its reports depend on the successful captures alone |
| Prober.ReportsMeanWhatTheySay | internal/agent/probe/activity.go:284-311 | Changed iff the hash moved; Stable only after a full period of equal hashes, and at the first such moment |
| Detector.AtMostOneSafeSignal | internal/agent/codex/probe_intent_screen_change.go:171-273 | in every interleaving no send on a closed channel, at most one signal, and each after ScreenStable and two passed checks |
| Detector.HolderFinishes | internal/agent/codex/probe_intent_screen_change.go:210-246 | once main waits for the mutex its holder releases it unaided on every path, even from a blocked send |
| Detector.OthersLeaveHolder | internal/agent/codex/probe_intent_screen_change.go:210-246 | nobody else's action moves or dispossesses the holder |
| Detector.TeardownSparesReplacement | internal/agent/codex/probe_intent_screen_change.go:255-273 | teardown leaves the own watch cancelled and every other watch running |
| Detector.SignalsWhenClear | internal/agent/codex/probe_intent_screen_change.go:193-245 | in every reachable state that is armed, unsignalled, waiting and unlocked, a screen change whose checks pass sends the signal and frees main to go on |
| Detector.SentIff | internal/agent/codex/probe_intent_screen_change.go:193-245 | a finished callback has sent iff it found the detector armed, passed both checks, found neither closed nor emitted, and its select sent |
| Detector.MainReturns | internal/agent/codex/probe_intent_screen_change.go:252-273 | once a signal is out or the context cancelled and no callback holds the mutex, main returns by itself with the watch stopped and closed set |
| Decision.TryThreadList | internal/codexbroker/decision.go:82-147 | sees activity iff the broker can be asked and some thread is in an active status |
| Decision.EvalPredicateA | internal/codexbroker/decision.go:47-70 | A iff an active thread is seen, or a job is queued, or one is running and not stale |
| Decision.EvalPredicateB | internal/codexbroker/decision.go:260-277 | B iff some completed job within the window has a readable result |
| Decision.EvalPredicateC | internal/codexbroker/decision.go:339-381 | C iff the working directory is not known gone and the registered pane is known alive |
| Decision.EvalDecision | internal/codexbroker/decision.go:453-537 | kill iff not A, not B, not C and idle; foreign names the reason and never changes the verdict |
| Decision.IdleExpiredExactly | internal/codexbroker/decision.go:485-498 | idle iff no job, or old enough in whole seconds, or stamped a second or more ahead |
| Decision.KillableMeansQuiet | internal/codexbroker/decision.go:47-70 | what a kill verdict says about each job |
| Decision.ActiveInAnyCase | internal/codexbroker/decision.go:226-233 | the five statuses that count as activity, in any case of letters |
| Decision.OwnerExactly | internal/codexbroker/decision.go:339-381 | owned iff registered to a pane known alive and the directory is not known gone |
| Decision.KillableExactly | internal/codexbroker/decision.go:453-537 | kill iff no active thread, every job at rest, no owner and idle, each by its evidence |
| KillSequence.VerifyIdentity | internal/codexbroker/killer.go:40-79 | passes iff the first row with the pid is a broker started at the recorded time |
| KillSequence.ToleranceHasAHole | internal/codexbroker/killer.go:66-75 | the accepted start times are one second either way, or 2^63 ns or more too early, which no listing produces |
| KillSequence.Killer.WaitForExit | internal/codexbroker/killer.go:281-297 | true iff some poll shows the pid gone, and polls no further |
| KillSequence.Killer.StepGraceful | internal/codexbroker/killer.go:144-196 | asks only over a unix endpoint with a dialer; true iff the exit is seen |
| KillSequence.Killer.SignalAndWait | internal/codexbroker/killer.go:249-276 | verify, look up, signal, wait, stopping at the first that fails |
| KillSequence.Killer.StepCleanup | internal/codexbroker/killer.go:381-404 | removes the socket directory unless there is none or it is known held |
| KillSequence.Killer.Run | internal/codexbroker/killer.go:427-494 | everything one run does in order, when it fails, and what it reports |
| KillSequence.EverySignalIsGuarded | internal/codexbroker/killer.go:249-276 | each signal follows a committed preimage and immediately a passed check and the lookup of a group above 1; a failed check ends the run |
| KillSequence.SendsExactly | internal/codexbroker/killer.go:449-472 | exactly when TERM and KILL are sent; each at most once, TERM first |
| KillSequence.KillWithoutTerm | internal/codexbroker/killer.go:452-470 | KILL without TERM iff the TERM step found no group it may signal and the KILL step did |
| KillSequence.KillWithoutTermHappens | internal/codexbroker/killer.go:263-271 | a concrete such run |
| KillSequence.RemovalComesLast | internal/codexbroker/killer.go:478-493 | the directory is removed last, after no mismatch, and never while known held |
| KillSequence.PollingExactly | internal/codexbroker/killer.go:281-297 | polling shows one listing after another and stops with the first that shows the pid gone |
| KillSequence.SignalsWhatStays | internal/codexbroker/killer.go:449-472 | by what the listings show: nothing is sent if a poll after the shutdown request shows the exit, and otherwise exactly when TERM and when KILL is sent |
| KillSequence.ReportsWhatWasSeen | internal/codexbroker/killer.go:427-494 | each reported success is a poll in the log that saw the broker gone after that step, and the clean-up a removal that worked |
| KillSequence.RemovesIff | internal/codexbroker/killer.go:381-404 | a completed run removes the directory iff there is one that is not known held |
| Quarantine.AddedQuarantines | internal/codexbroker/quarantine.go:62-74 | adding quarantines that key and no other, keeps the other entries and never doubles a key |
| Quarantine.QuarantineFile.AddEntry | internal/codexbroker/quarantine.go:62-74 | overwrites the key's first entry or appends |
| Quarantine.QuarantineFile.PurgeExpired | internal/codexbroker/quarantine.go:78-89 | keeps exactly the entries without expiry or not yet expired, and leaves the file alone |
| SweepRuns.DecideKill | internal/codexbroker/sweep.go:237-268 | kills iff applying, killable, and foreign only by explicit key; the recorded reason |
| SweepRuns.SectionExclusion | internal/codexbroker/sweep.go:305-347 | two requests are in the section together only if both are filtered and their keys differ or both are dry runs |
| SweepRuns.NeverDeadlocked | internal/codexbroker/sweep.go:451-495 | in every reachable state with work left somebody can act, however the locks order their queues |
| SweepRuns.AbandonedWaitReleasesOnce | internal/codexbroker/sweep.go:453-495 | over any run, an abandoned wait keeps its place for the same lock and mode until its helper, having obtained the lock, releases it exactly once |
| SweepRuns.AbandonedWaitsLeakNothing | internal/codexbroker/sweep.go:453-495 | no step but the helper's own release removes an abandoned ticket; with no request at work and no helper left every lock is free |
| SweepRuns.WholeRunKillSafety | internal/codexbroker/sweep.go:229-300 | in every interleaving each signal was licensed by verdict, mode and filter, not quarantined at the start nor when it was sent, and preceded by preimage, identity check and group lookup of the same kill |
| SweepRuns.NothingAfterMismatch | internal/codexbroker/sweep.go:277-287 | after an identity mismatch nothing is ever done to that key again |
| SweepScans.ScanIsComplete | internal/codexbroker/sweep.go:229-300 | a request that left the section has reached every record it was given and logged the whole kill, in order and once, of exactly those that it should kill, and nothing for the others |
| SweepScans.NothingBeyondTheScan | internal/codexbroker/sweep.go:229-300 | a request that never entered, and any visit it was not given, leaves no effect |
| SweepScans.ScanGoesOn | internal/codexbroker/sweep.go:229-300 | inside the section a request can always act, and each action brings it closer to the end |
| SweepScans.FailureQuarantines | internal/codexbroker/sweep.go:277-287 | after a failed identity check the key is in quarantine once the request has left |
| Inventory.NothingIsCountedTwice | internal/codexbroker/reconcile.go:82-245 | with distinct pids each process is in one record, and each directory in one unless it is lost by an exact condition |
| Inventory.NothingIsLost | internal/codexbroker/reconcile.go:48-60 | with distinct keys and socket directories nothing is lost |
| Inventory.Conservation | internal/codexbroker/inventory.go:238-261 | the three counters are the input sizes and the total is their sum less the merges |
| Reconcile.SharedKeyReported | internal/codexbroker/reconcile.go:100-119 | a shared key is reported on each of its processes, as duplicate only if all work in one directory |
| Reconcile.ClassifiedFacts | internal/codexbroker/reconcile.go:277-345 | what each answer of the stat makes of the directory: exists, missing, or unknown |
| Reconcile.ProcessRecordShows | internal/codexbroker/reconcile.go:83-195 | a process record shows its process, all of the state directory it owns or nothing, its socket directory, and the anomalies of its sources and of the join |
| Reconcile.StateRecordShows | internal/codexbroker/reconcile.go:197-217 | what the record of a state directory without a process shows |
| Reconcile.SocketRecordShows | internal/codexbroker/reconcile.go:219-245 | what the record of a socket directory without a process shows, and whose key it takes |
| Reconcile.IndexStates | internal/codexbroker/reconcile.go:48-60 | the last directory of each key, and of each session directory |
| Reconcile.GroupProcesses | internal/codexbroker/reconcile.go:69-73 | the processes of each key, in order |
| Reconcile.BuildProcessRecord | internal/codexbroker/reconcile.go:83-195 | the record of one process, the directory it owns and the socket it takes |
| Reconcile.Reconcile | internal/codexbroker/reconcile.go:36-248 | every record is the one its origin deserves, in emission order |
| Reconcile.AssembleResult | internal/codexbroker/inventory.go:214-263 | the summary counts what the records show |
| Reconcile.ScanResult | internal/codexbroker/inventory.go:199-210 | conservation for the scan's actual records and summary |
| Topo.IndexModules | internal/core/topo.go:11-17 | finds a repeated name iff there is one |
| Topo.CountEdges | internal/core/topo.go:19-27 | finds an unknown dependency iff there is one, else counts every edge with repetitions |
| Topo.Drain | internal/core/topo.go:36-47 | an order with dependencies first; whatever is left out depends on something left out |
| Topo.OrderedHasNoKnot | internal/core/topo.go:49-51 | an order with dependencies first excludes a circular set |
| Topo.TopoSort | internal/core/topo.go:6-54 | a permutation with dependencies first, or the error whose cause exists; circular iff a set exists in which each member depends on a member |
| Numerals.ConvertRoundTrip | internal/pairing/base58.go:21-72 | changing base and back is the identity, leading zeros included, for any two bases |
| Base58.IndexIsInverse | internal/pairing/base58.go:11 | the alphabet has no repeats and position is the inverse of lookup |
| Base58.Encode | internal/pairing/base58.go:21-41 | the digits of the value, a leading 1 for each leading zero byte, by append and reverse |
| Base58.ReadValue | internal/pairing/base58.go:54-62 | the value of a text, or failure iff a character is foreign |
| Base58.Decode | internal/pairing/base58.go:53-72 | the bytes of the value with leading zeros restored |
| Base58.DecodeOfEncode | internal/pairing/base58.go:20-72 | decode of encode is the identity on every byte string |
| Base58.EncodeOfDecode | internal/pairing/base58.go:20-72 | encode of decode is the identity on every valid text; decode fails iff a character is foreign |
| Base58.EncodePairingCode | internal/pairing/base58.go:75-94 | the formatted code of address, port and secret |
| Base58.DecodePairingCode | internal/pairing/base58.go:98-129 | accepts iff all characters are valid and the value fits 72 bits |
| Base58.CodeValue | internal/pairing/base58.go:44-50 | a code has exactly 13 digits and spells the value of its nine bytes |
| Base58.PairingRoundTrip | internal/pairing/base58.go:75-129 | every address, port and secret come back, dashes and leading zeros included |
| Base58.DashesInPlace | internal/pairing/base58.go:88-94 | dashes stand after the fourth and the eighth digit and nowhere else |
| Base58.PairingInverse | internal/pairing/base58.go:75-129 | encoding what a 13-digit code decodes to gives that code back |
| Sorting.SortFacts | internal/store/trace_write.go:231-239 | the sort returns a sorted permutation |
| Sorting.SortIsStable | internal/store/trace_write.go:231-239 | elements with equal keys come out in the order they went in |
| TraceRecords.FillSteps | internal/store/trace_write.go:193-229 | the steps with what they left out filled in, or rejection at a foreign chain |
| TraceRecords.CheckParents | internal/store/trace_write.go:241-249 | true iff every named parent comes earlier |
| TraceRecords.Normalize | internal/store/trace_write.go:187-293 | accepts and completes a record, or rejects it |
| TraceRecords.NormalFacts | internal/store/trace_write.go:187-293 | an accepted record's steps are a sorted permutation of the given ones with all they brought, of one chain, parents first, counted |
| TraceRecords.FilledIn | internal/store/trace_write.go:193-229 | what each step and the chain's place get for each thing they left out |
| TraceRecords.RefusedIff | internal/store/trace_write.go:199-249 | a record is refused iff a step names another chain, or else a parent does not come first |
| TraceRecords.HeaderFacts | internal/store/trace_write.go:251-292 | the header of an accepted record: what was given is kept, and where start, end, place, root and latest verdict come from otherwise |
| TraceRecords.PlanRootDedup | internal/store/trace_write.go:55-86 | the shared root and the stored form of every payload |
| TraceRecords.SharingIsLossless | internal/store/trace_write.go:38-54 | every payload resolves to its own stored bytes, and a shared first payload is stored once |
| TraceStore.TraceStore.SaveChain | internal/store/trace_write.go:90-173 | saves all or changes nothing; fails iff not normalisable or a step id is taken |
| TraceStore.InsertSteps | internal/store/trace_write.go:143-163 | inserts the planned rows in order, or stops at a taken key |
| TraceStore.ParentInserted | internal/store/trace_migration.go:288-291 | a step's parent row is there when the step is inserted, so the reference never fails |
| TraceStore.OldestChains | internal/store/trace_write.go:295-341 | the loop evicts the oldest chains until both limits hold |
| TraceStore.EvictsShortestPrefix | internal/store/trace_write.go:329-338 | the evicted chains are the shortest oldest-first prefix that restores both limits |
| TraceStore.KeptExactly | internal/store/trace_write.go:295-341 | a successful save leaves its record in the store iff the record and the chains not older than it fit both limits |
| TraceStore.OversizedEvictsItself | internal/store/trace_write.go:329-338 | a record larger than the step limit is evicted by its own save |
| TraceStore.OldestEvictsItself | internal/store/trace_write.go:329-338 | so is a new record older than every chain of a full store |
| TraceStore.SavedKeepsInv | internal/store/trace_write.go:110-168 | a save keeps keys, references, counts and order, and ends within both limits |
| TraceStore.RunKeepsInv | internal/store/trace_write.go:90-173 | the same after any run of saves |
| TraceStore.ReadAfterSave | internal/store/trace_read.go:54-115 | a saved chain reads back in order with every text byte-equal to its stored form; every other chain reads as before |
| TraceStore.ReadsBackLastSaved | internal/store/trace_read.go:54-115 | after any run a present chain reads back as the record last saved for it |
| TraceStore.TraceStore.GetChainRecord | internal/store/trace_read.go:54-115 | the chain and its resolved steps, or none |
| Decimals.ParseFormatInt | internal/store/trace_read.go:230-242 | every 64-bit number survives its decimal text |
| Paging.CursorRoundTrip | internal/store/trace_read.go:230-247 | a cursor survives its text iff the chain id is not empty, bars included |
| Paging.ListChains | internal/store/trace_read.go:16-46 | one page of the filtered rows beyond the cursor, and the next cursor |
| Paging.PageExactly | internal/store/trace_read.go:16-46 | one page holds at most the limit, only chains that every given filter and the cursor admit, newest first, and names a continuation iff some are left, all older |
| Paging.PagesAreTheWholeList | internal/store/trace_read.go:117-165 | following the cursors with Before ends and yields the whole filtered list, newest first, each chain once |
| Paging.ForwardPagesRepeat | internal/store/trace_read.go:142-145 | without Before the second page repeats the first less its last row, and is the last |

## Left out

- Frame column `parent_frame_id` and the pane projection: they take no part in the lists.
- Proxy display ids: no lookup reads them.
- The sweep's fold of a pane: its attach-and-delete, attach-only and delete-only branches are steps of the model; its timer and its second look at the ancestor's process are not, so the model may delete where the sweep would skip.
- The scan over a pane's frames that precedes a detach: it only picks the frame on which the modelled loop runs.
- FrameProofs.FoldingLosesNoAgent: assumes readable start times in session starts, because FrameLosses.UnreadResetLosesAgent shows the loss otherwise.
- IdentityRegister.HighestVersionWins: is stated for events that carry both fields, because IdentityRegister.PartialOrderMatters shows that others do not converge.
- Inventory.Conservation: is stated for distinct keys and socket directories; Inventory.NothingIsCountedTwice says exactly what is lost otherwise.
- Base58.CodeValue: concerns the nine-byte buffers that the pairing code builds, the only ones its caller passes.
- `SweepHandler` as one object: its requests are modelled as interleaved steps, because two of them share the quarantine list and the locks.
- Waiting times, tickers and deadlines: a wait may end at any moment.
- HTTP, tmux, ps, lsof, sockets, JSON text, SQL text and migrations: parameters, or tables with their keys and cascades.
- Kill-sequence family scan after the signals: its result is discarded by the code.
- The E1 tracker and `OverrideE1`: recorded in a verdict and read by nothing that decides a kill.
- Anomaly details, job counters, memory figures and pid-file paths of inventory records: copied unchanged.
- Case folding of thread statuses outside ASCII, and floating-point rounding of idle seconds.
- The codex hooks file merge and the opencode plugin's event handlers.
- Electron, SPA, configuration, crash logs, metrics and command-line code.
