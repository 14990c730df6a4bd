# The VyOS configuration agent: a verified model

The agent keeps a VyOS device in step with a desired configuration that others put into a KV bucket.
This project models the parts of it whose correctness is a matter of whole runs, with failures,
concurrent callers, crashes and restarts, and proves what they promise.

| component | step machine | imperative form | theorems |
|---|---|---|---|
| configure and reconcile engine | `ConfigureCall`, `ConfigureSystem` | `ConfigureService` | `ConfigureMeaning`, `ConfigureTrace`, `ConfigureProjection`, `CheckpointFirst`, `FalseSync`, `FalseSyncNecessity`, `Convergence`, `PublishIndependence` |
| crash-safe checkpoint file | `StateFile`, `FileRegister`, `WholeSaves` | `FileStoreService` | `SaveMeaning`, `FileRegister`, `FileHistory`, `EngineOverFiles`, `SeveralTargets`, `UnsyncedFiles` |
| start, run, close and reconnect | `Lifecycle` | `AgentRuntime` | `LifecycleMeaning`, `LifecycleSafety`, `StartupReconcile` |
| remote-terminal supervisor | `Rtty` | `RttyRunner` | `RttyMeaning`, `RttySafety`, `RttyRefusal`, `RttyKilling`, `RttyAccounting`, `RttyReuse` |
| action workflow | `ActionCall` | `ActionService` | `ActionMeaning`, `ActionCall` |
| line counter, pattern checks | | `LineCounter`, `Placeholders` | `LineCounter`, `Placeholders`, `Subjects` |

`Text` holds white space and trimming.

## How the model is built

A call is a function from the answers it has received to the request it makes next. A system is any
number of calls, the mutexes, and an environment: the KV bucket, the device, the disk, the operating
system. A schedule is a list of labels, `Run` gives the state it leads to, if it is possible, and the
theorems are about all schedules. The imperative classes have the source's fields, loops and branches.
Their dependencies answer as they please (`*`), and a ghost monitor lets a class make only the
operations that the step machine makes next. In `AgentRuntime` and `RttyRunner`, where goroutines share
fields, a step counts as made only if the fields are what the machine's step makes of them, and while
mu is free other goroutines may change them; so what a step machine keeps, that code keeps.

A `...Meaning` module tells an operation from beginning to end, case by case: what it asks for, in which
order, after which answers, and what it returns. It proves that the step machine has exactly these
executions, and the imperative form is tied to it through its monitor.

For false-sync safety four things are assumed of the surroundings (`FalseSync.Reliance`): a KV record is
stored under its own target; a UUID does not come back under a key once another has replaced it there
(putting the current one again, also after a delete, is fine); `Reconcile` is asked about a target that
is not empty, as configuration validation guarantees; and there is one target, or a loss of power takes
no checkpoint back. KV reads are linearizable. A failed Apply leaves the device's configuration unknown.
`FalseSyncNecessity` shows for each of the four that without it the agent can declare a target in sync
that is not, from which states, and that such states come about. Over files the fourth need not be
assumed: it holds if directory syncs succeed and no process dies between a rename and the end of its
sync (`SeveralTargets`), and `UnsyncedFiles` shows what happens otherwise. That success is reported only
of what the checkpoint says (`CheckpointFirst`) needs none of the four.

For terminal sessions one thing is assumed (`RttyAccounting.NoReuse`): the operating system does not
give a PID to a new child while the reaper of an old child with that PID is still on its way to the
mutex. Coherence, the closing of channels and freedom from deadlock do not need it; the accounting does
(`RttyReuse.NoReuseIsNeeded`).

## What the model brings to light

- `Save` ignores whether the directory could be opened and synced. If it could not, or the process dies
  before, a loss of power can bring back an earlier checkpoint. With several targets, as after restarts
  under different configurations, a failed Apply may have made that one untrue, and the agent then skips a
  needed Apply (`UnsyncedFiles.UnsyncedFilesLie`). With one target this cannot happen
  (`FalseSync.FalseSyncSafety`), nor with several whose directory syncs all succeed
  (`SeveralTargets.SyncedFilesDoNotLie`).
- `Handle` compares the record's target with the notification's, `Reconcile` does not, so an Apply for a
  record filed under another target's key can fail without the checkpoint of its own target being
  doubted (`FalseSyncNecessity.OwnTargetIsNeeded`).
- `Close` waits for reconnect passes only. If someone calls `Close` directly, the reconcile that `Start`
  runs can still be running when `client.Close` is called
  (`StartupReconcile.StartupReconcileCanOutliveClient`); from the moment that Start's body has begun, this
  is possible unless a `Close` has given up (`StartupReconcile.OutlivesIffStillClosing`). The agent's main
  function only calls `Run`, and then it cannot happen (`StartupReconcile.RunsDoNotOverlap`).
- A `Close` that times out leaves the client open for good (`LifecycleSafety.TimedOutCloseIsFinal`), and
  every later `Close` returns nil (`LifecycleSafety.LaterClosesReturnNil`).
- Nothing checks the literals of an action pattern, but its subjects never clash: of the two actions that
  can be enabled neither ends in the other (`Subjects.AgentActionsAreTold`). Another action could change
  that, for some patterns (`Subjects.TellsActionsIff`); with arbitrary actions every target would have to
  avoid some character of the literal between the placeholders (`Placeholders.TellsIffSeparated`).
- The comment on `Save` says that it writes atomically. That holds of the contents after every crash
  (`FileRegister.CrashAtomicity`), but a `Save` that returned nil can be undone by a loss of power
  (`FileHistory.SaveCanBeUndone`): exactly as long as the directory has not been flushed since its rename
  (`FileHistory.UndoneIffNeverFlushed`).

## Model

| member | source | states |
|---|---|---|
| FalseSync.FalseSyncSafety | internal/configure/service.go:138-149 | in every schedule of calls, KV updates, failures, crashes and losses of power that meets the assumptions, a record is declared already in sync only if the last Apply attempted for its target was for that UUID and succeeded |
| FalseSync.FalseSyncSafetyOfRecords | internal/configure/service.go:138-149 | if no two records of the target share a UUID, that Apply was of the very record declared |
| FalseSync.RunsKeepInv | internal/configure/service.go:87-149 | the invariant behind it: the versions of a KV key are distinct, the lock holder's locals agree with store and device, and every checkpoint that the store holds or may fall back to is backed by the device while it could still match |
| FalseSync.StepKeepsInv | internal/configure/service.go:157-219 | every single step, of calls and of the surroundings, keeps that invariant |
| FalseSync.ApplyIsForALaterRecord | internal/configure/service.go:256-258 | what is applied is a later version of its KV key than anything the store holds or may fall back to |
| CheckpointFirst.CheckpointBeforeSuccess | internal/configure/service.go:262-282 | in every schedule, at every attempted success status or result the store holds the checkpoint of the configuration reported |
| CheckpointFirst.RunsKeepHonest | internal/configure/service.go:138-148 | the invariant behind it: a call reports under the identifiers of the record it carries, and from the comparison or the Save on the checkpoint names them |
| FalseSyncNecessity.FreshUuidIsNeeded | internal/configure/service.go:138-138 | a reachable false sync when a replaced UUID comes back |
| FalseSyncNecessity.PutBackLies | internal/configure/service.go:190-193 | putting a UUID back leads to a false sync from every reachable state whose checkpoint still names it while the device has left it |
| FalseSyncNecessity.OwnTargetIsNeeded | internal/configure/service.go:190-206 | a reachable false sync when a record is filed under another key, since Reconcile does not compare targets |
| FalseSyncNecessity.MisfilingLies | internal/configure/service.go:190-206 | filing a record for a target under another key leads to a false sync from every reachable state whose checkpoint names that target's desired record |
| FalseSyncNecessity.NamedTargetIsNeeded | internal/config/validate.go:11-13 | a reachable false sync when Reconcile is asked about the empty target and there is no checkpoint |
| FalseSyncNecessity.NamelessLies | internal/state/file_store.go:37-38 | a Reconcile of the empty target leads to a false sync from every reachable state without a checkpoint |
| FalseSyncNecessity.OneWorldIsNeeded | internal/state/file_store.go:111-122 | a reachable false sync with two targets, one after the other, when a loss of power undoes a rename |
| FalseSyncNecessity.TakingBackLies | internal/state/file_store.go:111-122 | a loss of power leads to a false sync from every reachable state in which it can take back a checkpoint of a desired record that the device does not hold |
| ConfigureMeaning.CallsDoAsTold | internal/configure/service.go:71-312 | the executions of Handle and Reconcile are exactly the ones told: every request with its identifiers, level and code, in order, and the return that follows from the answers |
| ConfigureMeaning.FailuresHaveTheirCause | internal/configure/service.go:91-135 | each failure code of Handle has its cause, in the notification, in the answer to the lookup, or in a load, a render or an apply of the loaded record that failed |
| ConfigureMeaning.DriftIsRendered | internal/configure/service.go:138-148 | a Handle that has loaded the record it was notified of, and any checkpoint but that record's, goes on to render that record |
| Convergence.BoundedConvergence | internal/configure/service.go:108-149 | from any reachable state with the desired record fixed, whoever holds the lock: of the later calls that are a Reconcile or a notification of that record, at most k failures of dependencies and at least k + 1 completed passes leave its checkpoint stored and its Apply successful, whatever the publishes answer, whichever calls for the target interleave, and through crashes |
| Convergence.QuietAfterwards | internal/configure/service.go:190-193 | once the checkpoint names the desired record, and the call that held the lock at the start is over, it stays, and no later request is a Render, an Apply or a Save |
| Convergence.ConcurrentIdempotency | internal/configure/service.go:138-148 | concurrent calls for one target, in every lock order and through crashes: at most one Save succeeds, and none applies if the checkpoint matched before; exactly one Apply and one Save happen if nothing fails or crashes |
| Convergence.PassesEnd | internal/configure/service.go:89-149 | a call that holds the lock can always make its next step, which brings it closer to giving the lock back |
| Convergence.FailingNeedsFailure | internal/configure/service.go:108-148 | a Reconcile or a notification of the fixed record turns to reporting failure only when a load, render, apply or save has just failed |
| PublishIndependence.PublishOutcomesDoNotMatter | internal/configure/service.go:99-106 | two schedules that differ only in publish answers are both possible, make the same dependency calls in the same order and end with the same checkpoint, device and KV bucket |
| PublishIndependence.SimilarSystemsStepAlike | internal/configure/service.go:273-280 | the simulation step: similar systems make the same request and stay similar |
| ConfigureTrace.HandleTraceLanguage | internal/configure/service.go:71-149 | the attempted stages of a Handle call are one of seven words; exactly one result is attempted, none after a failed Save; nil is returned if and only if the success status and the success result were accepted |
| ConfigureTrace.EveryHandleWordOccurs | internal/configure/service.go:91-148 | each of the seven words is attempted by some execution, so the language is exact |
| ConfigureTrace.ReconcileTraceLanguage | internal/configure/service.go:152-220 | the same for Reconcile: six words, silence if and only if there is nothing to apply, and when no result is attempted |
| ConfigureTrace.EveryReconcileWordOccurs | internal/configure/service.go:160-219 | each of the six words is attempted by some execution, for every target |
| ConfigureTrace.CallsStayExpected | internal/configure/service.go:224-299 | for every prefix of a call, exactly which stages, results and Saves it has made by the point it stands at |
| ConfigureTrace.NoFailureAfterApply | internal/configure/service.go:256-282 | once its Apply has succeeded, a call never attempts a failure status or a failure result |
| ConfigureTrace.FailedCallsSaveNothing | internal/configure/service.go:108-135 | a call that fails at load, validation, render, apply or save has saved no checkpoint, and none saves without a successful Apply |
| ConfigureProjection.ProjectionsAreCalls | internal/configure/service.go:89-90 | in every schedule of the whole system, with crashes and restarts, the events of each call are an execution of that call, up to where it stands |
| ConfigureProjection.HandlesSpeakTheirLanguage | internal/configure/service.go:71-149 | so the trace language, the results and the meaning of nil hold of every Handle call in company |
| ConfigureProjection.ReconcilesSpeakTheirLanguage | internal/configure/service.go:152-220 | and of every Reconcile call |
| ConfigureService.Service.Handle | internal/configure/service.go:71-149 | one whole execution as told in ConfigureMeaning; checkpoint and device change only for the notified target and UUID, a nil return means the checkpoint names it, and a failure leaves the checkpoint; a nil context touches nothing |
| ConfigureService.Service.HandleLocked | internal/configure/service.go:91-129 | Handle under the lock, in the source's order of checks; same effect |
| ConfigureService.Service.HandleLoaded | internal/configure/service.go:132-148 | Handle from the state load on; same effect |
| ConfigureService.Service.Reconcile | internal/configure/service.go:152-220 | one whole execution as told in ConfigureMeaning; the record found is the one in its events under the target's key, nil without work exactly when the checkpoint names target and UUID, otherwise the effect of processing that record; nothing changes if none was found |
| ConfigureService.Service.ReconcileLocked | internal/configure/service.go:160-219 | Reconcile under the lock; same effect |
| ConfigureService.Service.ReconcileLoaded | internal/configure/service.go:170-219 | Reconcile from the KV lookup on: not-found and nil records end in silence, other errors in one failure status; same effect |
| ConfigureService.Service.ProcessDesiredConfigLocked | internal/configure/service.go:224-283 | the checkpoint names the record only after its Apply has succeeded; a failed render or apply reports failure and leaves the checkpoint |
| ConfigureService.Service.CheckpointAndReport | internal/configure/service.go:262-282 | after Apply: the new checkpoint unless Save failed, and never a failure report |
| ConfigureService.Service.Fail | internal/configure/service.go:285-299 | attempts the failure status and then the failure result, whether or not the first is accepted, and changes nothing else |
| FileRegister.Linearizable | internal/state/file_store.go:24-123 | in every interleaving of Saves and Loads the log is a legal history of an atomic register whose value is the file; a Save is in it once if it returned nil and not at all if it failed; a Load is in it with what it returned; one that is pending or died is in it at most once |
| FileHistory.RealTimeOrder | internal/state/file_store.go:24-123 | and if one operation is over before another begins, its entry comes first: with the row above, linearizability |
| FileRegister.CrashAtomicity | internal/state/file_store.go:88-120 | a loss of power at any point leaves the complete bytes of some Save that took effect, or what was there at the start, even if renames are lost; which of them, the rows of FileHistory say |
| FileRegister.FlushedIsDurable | internal/state/file_store.go:116-120 | once the directory entry is flushed, a loss of power takes nothing back |
| FileHistory.PowerLossReachesTheLastFlush | internal/state/file_store.go:116-120 | over whole schedules: a loss of power leaves what the file held at the last flush of the directory or the complete bytes of a Save that took effect since |
| FileHistory.UndoneIffNeverFlushed | internal/state/file_store.go:111-120 | what the file held before a rename is what a loss of power can leave if and only if the directory has not been flushed since |
| FileHistory.SaveCanBeUndone | internal/state/file_store.go:116-122 | a schedule in which Save has returned nil and a loss of power leaves no state file |
| FileRegister.PublishedFilesAreFrozen | internal/state/file_store.go:78-114 | an inode that has had the state file's name is never written again |
| FileRegister.RenameWritesRegister | internal/state/file_store.go:111-114 | the rename is the moment a Save takes effect, and what it publishes is complete and on disk |
| FileRegister.RunsKeepInv | internal/state/file_store.go:78-114 | no two Saves share a temporary file, published files are synced and owned by no Save, and the log agrees with every operation's progress |
| FileStoreService.FileStore.Save | internal/state/file_store.go:54-123 | nil means the checkpoint is the new one and no temporary name is left, an error means it is untouched, and every state of the disk in between would leave the old or the new one after a crash; nil exactly if its first ten operations succeed, and the temporary file of a failed Save is gone unless its removal, the last operation, failed |
| FileStoreService.FileStore.SavePayload | internal/state/file_store.go:57-82 | Save up to the temporary file, each failure with its own way out |
| FileStoreService.FileStore.FillTemp | internal/state/file_store.go:84-106 | write, sync, chmod and close, with cleanup on each failure |
| FileStoreService.FileStore.Publish | internal/state/file_store.go:107-122 | last context check, rename, and a directory sync whose failure is ignored |
| FileStoreService.FileStore.Load | internal/state/file_store.go:24-51 | fails if and only if one of the operations it makes fails; otherwise it returns exactly the stored state, with a missing or undecodable file read as the empty one |
| FileStoreService.SaveStepStaysOnTrack | internal/state/file_store.go:78-120 | every operation of Save, successful or not, keeps the old contents behind every old entry, and puts only synced, complete bytes behind a new one |
| SaveMeaning.SavesIff | internal/state/file_store.go:54-123 | the executions of Save are exactly the ones told: which operations, with which effect on the file system, after which outcomes |
| SaveMeaning.NilMeans | internal/state/file_store.go:54-123 | nil if and only if the first ten operations succeed; the new file then has the name, and a loss of power can undo that unless the directory sync succeeded |
| SaveMeaning.FailureCleansUp | internal/state/file_store.go:84-114 | a failed Save leaves the state file alone and, once it has made its temporary file, removes it or has tried to last |
| EngineOverFiles.EngineRefines | internal/configure/service.go:132-269 | every schedule of the engine over file operations, with crashes between any two of them, is a schedule of the engine over an atomic register with the same calls, KV bucket, device and checkpoint |
| EngineOverFiles.FilesDoNotLie | internal/state/file_store.go:24-123 | false-sync safety for the composed system |
| SeveralTargets.SyncedFilesDoNotLie | internal/state/file_store.go:111-120 | false-sync safety for any number of targets with power lost at any moment, if opening and syncing the directory succeed and no process dies between rename and sync |
| SeveralTargets.SyncedRunsAreAssumed | internal/state/file_store.go:111-120 | in such schedules only the current entry can survive a loss of power, or the one before while a Save is between rename and sync, so no loss takes a checkpoint back |
| UnsyncedFiles.TakingBackLies | internal/state/file_store.go:116-120 | a loss of power leads to a false sync from every reachable state of the composed system with an entry that may survive and leads to the checkpoint of a desired record that the device does not hold |
| UnsyncedFiles.UnsyncedFilesLie | internal/state/file_store.go:116-122 | with two targets such a state is reachable, both when directory syncs fail and when processes die before them |
| EngineOverFiles.SavedIsCovered | internal/state/file_store.go:111-120 | what a Save leaves for a crash to find is a version the register may fall back to, and its own exactly once it has renamed |
| LifecycleSafety.ShutdownSafety | internal/agent/agent.go:101-123 | once closed is set no pass is admitted and the WaitGroup is not incremented, waiting begins only after that and after the passes have been cancelled, and no admitted pass runs when client.Close is called or later |
| LifecycleSafety.SingleUse | internal/agent/lifecycle.go:19-44 | the body of Start runs at most once and never if closed came first, client.Close is called at most once, and the flags only move forward |
| LifecycleSafety.TimedOutCloseIsFinal | internal/agent/lifecycle.go:121-139 | after a Close that timed out no client.Close ever happens |
| LifecycleSafety.LaterClosesReturnNil | internal/agent/lifecycle.go:121-123 | every Close called after that returns nil, having done nothing |
| LifecycleSafety.TimeoutAbandons | internal/agent/lifecycle.go:136-138 | a timeout in Close leads there |
| StartupReconcile.RunsDoNotOverlap | internal/agent/lifecycle.go:48-72 | if nobody calls Close directly, nobody is in the body of Start once client.Close has been called |
| StartupReconcile.OutlivesIffStillClosing | internal/agent/lifecycle.go:117-149 | with someone in the body of Start, client.Close can come to be called during Start's reconcile, or has been, if and only if closed is unset, client.Close has been called or the goroutine that set closed has not given up |
| StartupReconcile.StartupReconcileCanOutliveClient | internal/agent/lifecycle.go:106-114 | with a direct Close it does happen |
| LifecycleSafety.NoDeadlock | internal/agent/lifecycle.go:117-149 | in every reachable state with an unfinished goroutine, some goroutine can move |
| LifecycleMeaning.GoroutinesDoAsTold | internal/agent/lifecycle.go:19-149 | in every schedule, each Start, Run, Close and reconnect callback that has finished has done what is told: which steps, after which flags and answers, and with which result; a failed reconcile does not fail Start, a failed startup status does, and Run answers what its Close answers |
| LifecycleMeaning.GoroutinesIff | internal/agent/lifecycle.go:19-149 | the executions of such a goroutine are exactly the ones told |
| AgentRuntime.Runtime.BeginStart | internal/agent/lifecycle.go:19-32 | grants the start if and only if neither flag was set when the lock was taken, and has set started by the time it is given back |
| AgentRuntime.Runtime.MarkClosed | internal/agent/lifecycle.go:34-44 | has set closed by the time the lock is given back, and says whether it was set when it was taken |
| AgentRuntime.Runtime.Start | internal/agent/lifecycle.go:75-114 | granted only if neither flag was set before; a start that is not granted asks for nothing; a granted one succeeds exactly if the handlers, client.Start and the startup status do |
| AgentRuntime.Runtime.StartBody | internal/agent/lifecycle.go:84-113 | Start once granted: what is asked for, in order; each failure but the reconcile's ends it, and only a failed startup status closes the runtime |
| AgentRuntime.Runtime.Run | internal/agent/lifecycle.go:48-72 | nil exactly if its Start and its Close both succeed; nothing is asked for if the start is not granted |
| AgentRuntime.Runtime.Close | internal/agent/lifecycle.go:117-149 | nil exactly if closed was set before, or the wait ended in time and client.Close succeeded; only the goroutine that sets closed cancels, waits and calls client.Close, in this order |
| AgentRuntime.Runtime.Admit | internal/agent/agent.go:101-112 | a pass is admitted if and only if closed was not set when the lock was taken, and is in the WaitGroup when it is given back |
| AgentRuntime.Runtime.CountPass | internal/agent/agent.go:114-122 | every admitted pass is counted and leaves the WaitGroup once, whatever its reconcile returns |
| RttySafety.Coherence | internal/actions/vyos_rtty.go:56-63 | whenever mu is free, the three fields are all clear or all name one child |
| RttySafety.RunsKeepInv | internal/actions/vyos_rtty.go:104-143 | the invariant behind it, for every interleaving of Execute calls and reapers: each critical section has its mutex, and what the fields, the session and the locals are at every point |
| RttySafety.ChannelsCloseOnce | internal/actions/vyos_rtty.go:121-128 | an exit channel is closed once, by its child's reaper, after the child has exited, and that step does close it |
| RttySafety.ReapersGoOn | internal/actions/vyos_rtty.go:120-137 | whenever mu is free, the reaper of every child that has exited has closed its channel and is through, or can go on and comes closer to that |
| RttySafety.Escalation | internal/actions/vyos_rtty.go:69-98 | SIGKILL goes only to children that were sent SIGTERM before |
| RttySafety.NoDeadlock | internal/actions/vyos_rtty.go:56-161 | in every reachable state with an unfinished call some goroutine can move |
| RttyRefusal.RefusedCallsTouchNothing | internal/actions/vyos_rtty.go:219-257 | a call refused for its payload, the binary or the certificate can be erased from any schedule: what is left is possible and ends with the same children, fields, session, signals and counts |
| RttyMeaning.CallsDoAsTold | internal/actions/vyos_rtty.go:56-295 | in every schedule, each Execute that has returned has done what is told: refused, or the child in the fields detached, stopped as far as its exit was not seen, and then, only if it was, a new one started and watched |
| RttyMeaning.ExecutesIff | internal/actions/vyos_rtty.go:56-295 | the executions of a call are exactly the ones told |
| RttyKilling.StartNeedsTheExit | internal/actions/vyos_rtty.go:74-88 | over all schedules: a call that goes on to Start found no child in the fields, or one that was sent SIGTERM, has exited and whose channel is closed |
| RttyKilling.WaitsSeeTheExit | internal/actions/vyos_rtty.go:75-88 | either wait of KillExisting can end with the exit if and only if the channel of the child it found is closed |
| RttyKilling.GivingUpFails | internal/actions/vyos_rtty.go:89-97 | a call whose KillExisting gave up starts nothing and returns an error; killErrors counts exactly these calls |
| RttyKilling.OrphansWereGivenUp | internal/actions/vyos_rtty.go:57-97 | every child given up on was the one that such a call had found in the fields |
| RttySafety.FailedStartsLeaveNoChild | internal/actions/vyos_rtty.go:155-160 | when Start gives back mu with an error no child of it is running; otherwise the fields name its child |
| RttyAccounting.SessionAccounting | internal/actions/vyos_rtty.go:215-277 | the running children are one session, which the fields name when no call is under way, and at most one more for each call whose KillExisting gave up on its child; such a call fails, and the children it left were sent SIGKILL |
| RttyAccounting.ReapersClearTheirOwn | internal/actions/vyos_rtty.go:130-136 | a reaper clears the fields only of its own child, which has exited |
| RttyAccounting.WrongClearsNeedReuse | internal/actions/vyos_rtty.go:131-131 | without the assumption on PIDs: a reaper goes on to clear the fields if and only if its child and the tracked one were given the same PID |
| RttyReuse.UntrackedChildIsLeft | internal/actions/vyos_rtty.go:56-67 | from every reachable state with clear fields and a child running, the next Execute can start a second one without any KillExisting failing |
| RttyReuse.NoReuseIsNeeded | internal/actions/vyos_rtty.go:130-136 | such a state comes about when a PID is reused before its reaper has got to mu: two children run and no KillExisting has failed |
| RttyRunner.Runner.KillExisting | internal/actions/vyos_rtty.go:56-99 | the fields are clear when mu is given back; SIGTERM, then SIGKILL unless the exit was seen, go to the child that was found; nil if and only if there was none or its exit has been seen |
| RttyRunner.Runner.Detach | internal/actions/vyos_rtty.go:57-63 | the first critical section hands over exactly the tracked child and clears the fields before it gives back mu |
| RttyRunner.Runner.Start | internal/actions/vyos_rtty.go:104-161 | a spawned child is in all three fields when mu is given back, even if it exits during the startup check, which alone makes Start fail then |
| RttyRunner.Runner.Forget | internal/actions/vyos_rtty.go:130-136 | the reaper's section clears the fields for its own PID only |
| RttyRunner.Runner.Execute | internal/actions/vyos_rtty.go:215-295 | a refused call sends nothing and leaves the fields; otherwise it succeeds if and only if the child it found has been seen to exit, a new one was made, and that did not exit during the startup check |
| ActionCall.ActionTrace | internal/actions/service.go:70-155 | one whole call: the executor runs at most once, only for an enabled action with an executor, and only after both running statuses were accepted; at most one result is accepted; nil if and only if the success result was accepted |
| ActionMeaning.HandlesIff | internal/actions/service.go:70-155 | the executions of a call are exactly the ones told: every request with its command, level and code, in order, and the return that follows from the answers |
| ActionMeaning.RefusalsHaveTheirCause | internal/actions/service.go:80-90 | once the received status is accepted: disabled if and only if not enabled, unsupported if and only if enabled without executor, and otherwise, and only then, the executing status comes next |
| ActionMeaning.AdmittedActionsSucceed | internal/actions/service.go:70-128 | an enabled action with an executor that ends with an output, all publishes accepted, returns nil after exactly the five requests |
| ActionMeaning.EveryWordOccurs | internal/actions/service.go:76-128 | each of the four words of stages is told by some execution, so the language is exact |
| ActionCall.CallsStayExpected | internal/actions/service.go:70-128 | for every prefix of a call, which stages, executions and results it has made |
| ActionCall.ProjectionsAreCalls | internal/actions/service.go:70-128 | in every interleaving, the events of one call are an execution of that call |
| ActionCall.ActionCallsAreIndependent | internal/actions/service.go:70-128 | so the promises about one call hold in every interleaving of many |
| ActionService.NewService | internal/actions/service.go:30-68 | exactly when each error is returned, and otherwise which actions are enabled and executable: blank names skipped, names trimmed, executor keys not |
| ActionService.Service.Handle | internal/actions/service.go:70-128 | one whole execution as told in ActionMeaning; nil exactly when the success result has been accepted, after one execution; at most one result accepted; a nil context touches nothing |
| ActionService.Service.Fail | internal/actions/service.go:130-155 | attempts the failure status and then the failure result, whether or not the first is accepted |
| LineCounter.CountNonEmptyLines | internal/configure/service.go:398-418 | the one-pass count is the number of pieces, cut at every newline or carriage return, that hold more than spaces and tabs |
| LineCounter.NonEmptyLinesAdd | internal/configure/service.go:403-407 | the count of a + break + b is the sum of the counts |
| LineCounter.PiecesUndoWeave | internal/configure/service.go:402-407 | the cut is the inverse of joining break-free pieces with breaks |
| Placeholders.ValidateFormatPlaceholders | internal/config/validate.go:204-224 | accepts if and only if the value is n + 1 percent-free literals joined by %s; the bad-directive error if and only if it is no such join for any n |
| Placeholders.DecompositionIsUnique | internal/config/validate.go:204-224 | those literals are determined by the value |
| Placeholders.ValidateSubjectPattern | internal/config/validate.go:161-178 | accepts if and only if non-empty, without white space or wildcards, with exactly n placeholders; and exactly when each other check refuses |
| Placeholders.ValidateKeyPattern | internal/config/validate.go:180-195 | the same without the wildcard check and for one placeholder |
| Placeholders.ValidateNoWhitespace | internal/config/validate.go:197-202 | refuses if and only if some character is white space |
| Placeholders.OnePlaceholderRoundTrip | internal/config/validate.go:86-100 | with one placeholder, Extract inverts substitution in both directions |
| Placeholders.DistinctTargetsHaveDistinctKeys | internal/config/validate.go:180-195 | so two targets have the same subject or key if and only if they are equal |
| Subjects.AgentActionsAreTold | internal/config/validate.go:38-46 | with two placeholders and the actions that can be enabled, two commands share a subject only if target and action are the same, whatever the pattern's literals |
| Subjects.TellsActionsIff | internal/config/validate.go:81-84 | for any set of actions this holds if and only if no action is another one with something in front that the literal before it can hide |
| Placeholders.TellsIffSeparated | internal/config/validate.go:81-84 | a remark on arbitrary actions: targets over an alphabet are then told apart if and only if the literal in between holds a character outside the alphabet |
| Text.TrimIsTheMiddle | internal/config/validate.go:165-167 | trimming removes white space from both ends and nothing else, and leaves nothing if and only if all was white space |
| Text.SpacesAreListed | internal/config/validate.go:197-202 | white space are exactly the 25 characters with Unicode's White_Space property |

## Left out

- NATS, JetStream and the agentcore client are not part of this model: the client answers loads with a record, not-found, nil or an error, and accepts or rejects each publish.
- The VyOS renderer and apply backends: what is rendered from a record is represented by the record, and Apply reaches the device or not.
- "Device" means the last Apply attempted for each target; a device that loses its own unsaved configuration when its power goes is not modelled.
- Version, command type, bucket, key, timestamps and `AppliedAt`, error and status texts, logging and debug output.
- JSON: a codec that decodes what it encodes, and otherwise may decode anything or nothing.
- Conditions of a Go context are failures of the operation that checks them; a nil context appears in the `Handle` and `Reconcile` methods only. Nil contexts of Start, Run, Close, Save, Load and Execute return an error before anything is done. A nil logger, clock or dependency is not modelled.
- The file system: a rename that returns an error has not happened, a file that was synced survives a loss of power, the directory entry is the old or the new one. Failures to remove a temporary file are modelled, file modes are not.
- Strings are sequences of characters; bytes, UTF-8 and invalid encodings are not modelled.
- The configure service's `NewService`, and the construction of the runtime: the reconnect handler's tests for a runtime or a service that does not exist yet.
- FindBinary, the certificate search, payload validation, the command line and the result of Execute: one outcome of the step `Validate`.
- The packet-capture executor, the placeholder engines and executors, the CLI, the remaining range checks of `Validate`, defaults, conversion and redaction: easy members.
- Convergence.BoundedConvergence: only calls for the record's target wait or arrive, because a checkpoint of another target would replace the one at issue. What is left of a call that held the lock at the start, and notifications of other records (which `Handle` refuses), may come in between; their passes and failures do not count. Power stays on.
- Convergence.ConcurrentIdempotency: exactly one Apply needs that there is no crash, because a crash can come between an Apply and its Save.
- LifecycleSafety.NoDeadlock: counts the timeout in Close as a step that is always possible, and a reconcile as one that ends.
- RttySafety.NoDeadlock: counts the two timeouts in KillExisting and the one in Start as steps that are always possible.
- ActionService.NewService: the executors' map is gone through in any order, so which of several nil executors is named is left open, as in the source.
- ConfigureService.Service.HandleLocked, HandleLoaded, ReconcileLocked, ReconcileLoaded, RenderDesired and CheckpointAndReport, ActionService.Service.Process, AgentRuntime.Runtime.StartBody, CleanUp, Cancel, AwaitPasses, RegisterHandlers, OpenClient, PublishStatus, Reconcile and ShutClient, RttyRunner.Runner.Clear, Escalate and Track, FileStoreService.FileStore.FillTemp and Publish are stretches of one source function each.
