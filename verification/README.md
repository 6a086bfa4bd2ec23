# Verification model of the local E2B gateway

This project models the parts of the gateway that are hard to get right and proves what they keep, in Dafny 4.11.
`dafny verify dfyconfig.toml` checks all of it.

**Sandbox lifecycle and deadlines.** `Lifecycle` is a step relation. Threads stand for client requests, fired timers and
creations; a step is one access under a mutex, or one call into the runtime, and steps of all threads interleave. The
store is a map from IDs to entries with one lock each; timers carry the deadline they were made for; the clock and the
runtime are the environment. The other `Lifecycle*` modules prove invariants of it: who owns an entry
(`LifecycleLocking`), what expiry may touch (`LifecycleExpiry`), what else may change a record (`LifecycleChanges`), what the
answer to a request means (`LifecycleRequests`), that terminal expiry is final (`LifecycleTerminal`), that a running sandbox always has a timer or a callback for its deadline
(`LifecycleTimers`, `LifecycleCoverage`, with the limits of that in `LifecycleLimits`, `LifecycleWitnesses` and
`LifecycleReuse`), what shutdown leaves (`LifecycleShutdown`) and what the runtime may hold (`LifecycleOrphans`).
`DeadlineManager`, `SandboxStore` and `SandboxExpiry` are the objects behind it. The methods of the deadline manager compute
the functions on timers that the step relation uses. `LifecycleRefinement` ties the locked operations of `SandboxExpiry` and
the writes of the store to it: the steps of a lock holder that is not interrupted lead to the records and timers that the
method promises, and the steps of a whole request to what its answer says. `VolumeDirectory` and `TemplateUploadStore` are
tied to their protocols in the same way.

**Reply rendezvous.** `XpcRendezvous` is the waiter and the callback of `xpc_bridge_send`, one step per access to the
shared cell.

**Templates.** `TemplateBuilds` is the protocol of build tasks, wait group, shutdown and build records, and
`TemplateBuildManager` its object. `TemplateUploads` is the two-phase upload with calls in any interleaving, and
`TemplateUploadStore` its object. `TemplateOverlay` is the template store and the list laid over the runtime's.

**Volume content.** `VolumePublish` is any number of writers in one directory, `VolumeDirectory` one writer from start to
end, `VolumePaths` path cleaning and symlink containment, `VolumeLinks` the following of links below an opened root,
`VolumeListing` the depth-bounded listing.

**Smaller parts.** `ShellQuoting` (quoting, and the scripts it goes into, against a model of how the shell reads words and
commands), `SandboxPages` (pagination).
`Wrappers`, `Strings`, `Paths` and `Sorting` are what they share.

## Premises

- The clock does not go backwards and a timer does not fire before its time: the step relation builds this in, as it does
  that a timer that fired stays in the table until it is replaced or cancelled.
- No lost expiry of a sandbox needs three conditions on the steps of a run that concern this sandbox, each the guard of a
  step, named in `LifecycleRuns.Guards`: its ID is not stored twice (`freshIds`), no unlocked sync of its deadline works from
  a record that has changed since (`freshSyncs`), and no timer of it is kept because its fire time equals that of another
  deadline (`distinctFires`). Other sandboxes may do anything. Where a condition fails, the property fails:
  `LifecycleLimits` shows, step by step, when a timer is there after it, and for each condition there is a whole run that
  meets the other two and loses an expiry (`LifecycleReuse`, `LifecycleWitnesses`). With a runtime that can be inspected the
  third condition follows from the other two (`LifecycleInspector`). `TerminalExpiryAnswersNotFound` needs `freshIds` from
  the expiry on; every other result about the lifecycle holds of all runs.
- A creation's store insertion and its deadline sync are two steps, as in the code. Between them the sandbox is in
  `unsynced`, and `NoExpiryIsLost` speaks of the others.
- Temporary names of volume files are never a client's name and are drawn once (they carry random UUIDs); an inode number
  stands for one inode for good. Upload tokens are drawn once. The removal of a temporary file may fail, which the code
  ignores: `leftover` says which ones stay.
- Nobody else writes to a volume's files. A sandbox that mounts the volume could, at any moment; that is no step.
- A link is followed as Go's `os.Root` follows it: below the opened directory only, with a limit of 8 links
  (`VolumeLinks.MAX_LINKS`). Its further limits, on steps and on restarts at "..", are not part of this model.
- `saveLocked` of the management store (internal/gateway/management_store.go:71-73) always succeeds, as the code has it.
- Times are integers from an arbitrary origin, with 0 for Go's zero time.

## Results where code and intention differ

- The sync after creation runs without the entry's lock, and may replace a newer timer by the older one
  (`LifecycleWitnesses.LateCreationSyncLosesExpiry`).
- `schedule` keeps the timer it has on equal fire times, also if that was made for a retry of another deadline
  (`LifecycleWitnesses.CollidingRetryLosesExpiry`).
- The cancel that ends a removal runs after the record has gone, and stops the timer of a sandbox that was stored under the
  same ID in between (`LifecycleReuse.ReusedIdLosesExpiry`). So does the cancel of a callback that found no entry, which runs
  without a lock (internal/gateway/sandbox_deadlines.go:207-211); `LifecycleLimits.CancelCoversExactly` is about both.
- With equal creation times following the pages may miss a sandbox (`SandboxPages.EqualTimesLoseASandbox`);
  `SandboxPages.SessionsAreCompleteExactlyWhen` says that it cannot exactly if the times differ. With a third sandbox that
  is not older it may go on for ever; `SandboxPages.SessionsEndExactlyWhen` says that it ends exactly if there is none.
- The list of templates reads the deleted IDs and the managed templates one after the other. A template deleted in between is
  listed if the runtime has it, and one stored anew in between is not (`TemplateOverlay.BetweenTheReadings`).
- A volume file that was written may be answered with an error, if the entry cannot be read afterwards
  (`VolumeDirectory.WriteVolumeFile`).
- A listing fails on a link that stays in the volume and leads out of its own directory, which looking at that one path
  accepts (`VolumeListing.LinkInsideTheVolumeFailsTheListing`).
- Two templates can share an upload key if slashes allow it; `TemplateUploads.KeyIsUniqueExactlyWhen` says when.
- The listing hides a metadata name that holds a long s, which the check on paths lets through
  (`VolumePaths.HiddenButNotReserved`).

## Model

| member | source | states |
|---|---|---|
| LifecycleRuns.LifecycleLockIsExclusive | internal/gateway/store.go:47-75 | in every reachable state, also when an ID is deleted and stored again, a thread that lockSandbox let in holds the entry the map has now, no other thread does under that ID, and the record it carries is the stored one |
| LifecycleRuns.NoDeadlock | internal/gateway/store.go:47-75 | in every reachable state each thread that has not finished can go on, or waits for a lock whose holder can, the runtime only having to answer |
| LifecycleLocking.OwnedEntryIsUndisturbed | internal/gateway/store.go:35-75 | no step of anybody else touches an owned entry, its record, its lock or its place in the map |
| LifecycleExpiry.ExpiryIsNeverStale | internal/gateway/sandbox_deadlines.go:242-312 | whenever a callback is in a runtime pause or delete, the best-effort delete after a failed pause included, the stored record is running, has the deadline of the callback's timer, that has passed, and the call is the one its policy names |
| LifecycleTerminal.TerminalExpiryIsIrrevocable | internal/gateway/gateway_callbacks.go:623-636 | from a running record that is to be killed and past its deadline, under a free lock, no run changes the record; removal is the only change |
| LifecycleTerminal.TerminalExpiryAnswersNotFound | internal/gateway/gateway_callbacks.go:568-577 | every request on such a sandbox that has no current entry at that moment, or arrives later, can answer only not-found, unless the ID is stored anew |
| SandboxRecords.TerminallyExpiredMeans | internal/gateway/gateway_callbacks.go:705-722 | of a settled record: it is running, to be killed, and its deadline has come |
| SandboxRecords.TerminallyExpiredByDefault | internal/gateway/gateway_api.go:885-890 | of a record without a deadline: it is running, not to be paused, and fifteen seconds old |
| LifecycleRequests.RequestsAreExplained | internal/gateway/gateway_callbacks.go:568-704 | in every run, a request that has got the lock is turned away if and only if the record it finds is due to be killed, or an inspection says that the sandbox is gone or fails; a record that is not due is never turned away uninspected; otherwise it acts on that record, with the state the runtime reports |
| LifecycleRequests.AnswersMean | internal/gateway/gateway_callbacks.go:736-980 | in every run, what the answer of a request that acts means: conflict exactly for the wrong state, error exactly if the runtime failed, and else success, with the record paused, running, or with the asked deadline as the request says, or gone, and the record as it was in all other cases |
| LifecycleCoverage.NoExpiryIsLost | internal/gateway/sandbox_deadlines.go:57-103 | if the steps on this sandbox meet the three conditions, then while it is running and synced with its lock free it has an armed timer or an undecided callback for its present deadline, until shutdown |
| LifecycleInspector.InspectorRunsNeverCollide | internal/gateway/gateway_callbacks.go:657-704 | with an inspectable runtime, every run that meets the other two conditions for a sandbox meets the one on fire times as well |
| LifecycleLimits.LockedSyncCoversExactly | internal/gateway/sandbox_deadlines.go:67-75 | a lock holder's sync leaves a live timer for the deadline if and only if it does not collide with a timer kept for another |
| LifecycleLimits.UnlockedSyncCoversExactly | internal/gateway/gateway_callbacks.go:463-481 | a creation's unlocked sync, met by a running record, leaves a live timer for the stored deadline if and only if its record is not stale, or, where a timer for another deadline is kept, nothing changes |
| LifecycleLimits.CancelCoversExactly | internal/gateway/sandbox_deadlines.go:206-212 | the cancel after a removal, and that of a callback which finds no entry, leave no timer armed under the ID, and so leave no running record untimed if and only if no running record is stored there by then |
| LifecycleReuse.ReusedIdLosesExpiry | internal/gateway/sandbox_deletion.go:34-41 | a run with fresh syncs and distinct fire times in which an ID stored anew loses its expiry to the cancel of the earlier removal |
| LifecycleWitnesses.LateCreationSyncLosesExpiry | internal/gateway/gateway_callbacks.go:463-481 | a run with fresh IDs and distinct fire times in which a late creation sync loses an expiry |
| LifecycleWitnesses.CollidingRetryLosesExpiry | internal/gateway/sandbox_deadlines.go:314-322 | a run with fresh IDs and fresh syncs in which a retry at a later deadline's time loses an expiry |
| LifecycleChanges.ChangesAreAccountedFor | internal/gateway/gateway_callbacks.go:779-980 | in every run a stored record changes only by a thread on its ID, to what that thread's request, the expiry of its present deadline or the runtime's report accounts for, field by field |
| LifecycleChanges.NoRenewalShortens | internal/gateway/gateway_callbacks.go:858-980 | only set-timeout and resume can bring a deadline forward; a paused sandbox runs again only by resume, connect or the runtime's report; policy and creation time never change |
| LifecycleChanges.WaitingIsFree | internal/gateway/gateway_callbacks.go:915-943 | waiting for the lock, reconciling and resuming do not use up the time a request asks for: the new deadline counts from a moment after them, and not from a later one |
| LifecycleShutdown.ShutdownIsQuiescent | internal/gateway/sandbox_deadlines.go:131-161 | the wait-group count is that of the callbacks admitted and not finished; after shutdown returned nil none runs in any later state |
| LifecycleShutdown.NothingRunsAfterShutdown | internal/gateway/sandbox_deadlines.go:131-161 | from the moment shutdown returns nil, in any run, no callback is past its admission check |
| LifecycleOrphans.NoSandboxIsOrphaned | internal/gateway/gateway_callbacks.go:445-480 | each sandbox in the runtime has a record, or its creation is in flight, or its create-cleanup failed; a record about to be dropped has no sandbox left |
| LifecycleRefinement.ExpiryRefines | internal/gateway/sandbox_deadlines.go:242-322 | in every reachable state a callback about to judge can go on alone, for any answers of the runtime, to the records and timers that ExpireSandboxLocked promises |
| LifecycleRefinement.DeleteRuns | internal/gateway/sandbox_deletion.go:20-43 | the steps of a lock holder at a delete lead to what DeleteSandbox promises |
| LifecycleRefinement.PauseRuns | internal/gateway/gateway_callbacks.go:808-819 | the steps of a lock holder at a pause lead to what PauseSandboxLocked promises |
| LifecycleRefinement.ReconcileRuns | internal/gateway/gateway_callbacks.go:657-704 | the steps of a lock holder at an inspection lead to what ReconcileSandboxRecordWithInspector promises, and on with the record found |
| LifecycleRefinement.RetimeRuns | internal/gateway/gateway_callbacks.go:884-980 | the steps of a lock holder that sets a deadline lead to the record the store's method writes, with its timer in step |
| LifecycleRefinement.RequestRuns | internal/gateway/gateway_callbacks.go:736-980 | from acting, the steps of a lock holder lead to its answer, with the record that it says and, by its state, a timer for its deadline or none |
| LifecycleRefinement.CreationStores | internal/gateway/store.go:77-119 | in every reachable state a creation stores a record with nothing left to complete, exactly if the ID is free, as Create promises |
| DeadlineManager.DeadlineManager.Schedule | internal/gateway/sandbox_deadlines.go:57-103 | the table and the timers after a schedule: nothing when stopped or at an equal fire time, else the old timer stopped and a new one armed |
| DeadlineManager.DeadlineManager.Cancel | internal/gateway/sandbox_deadlines.go:105-113 | the ID's timer is stopped and its entry gone, and no other changes |
| DeadlineManager.DeadlineManager.BeginShutdown | internal/gateway/sandbox_deadlines.go:131-144 | the loop stops exactly the armed timers of the table and empties it |
| DeadlineManager.DeadlineManager.AdmitCallback | internal/gateway/sandbox_deadlines.go:82-93 | a callback runs only before shutdown, and is then counted |
| DeadlineManager.DeadlineManager.FinishCallback | internal/gateway/sandbox_deadlines.go:95-98 | an admitted callback leaves the wait group once |
| DeadlineManager.RestoreDeadlines | internal/gateway/sandbox_deadlines.go:324-328 | after start-up exactly the running records have a timer, armed for their own deadline, and no other ID has one |
| SandboxStore.SandboxStore.Create | internal/gateway/store.go:77-119 | succeeds exactly for a new ID and a known policy; the stored record is settled, completed as a restored one is, under a fresh entry |
| SandboxStore.SandboxStore.Delete | internal/gateway/store.go:191-203 | removes exactly the ID's record and says whether there was one |
| SandboxStore.SandboxStore.SetState | internal/gateway/store.go:205-219 | changes the state of that record only, and no entry's identity |
| SandboxStore.SandboxStore.SetEndAt | internal/gateway/store.go:225-239 | sets the deadline of that record only, earlier or later, and no entry's identity changes |
| SandboxStore.SandboxStore.ExtendEndAt | internal/gateway/store.go:241-258 | the later of the two deadlines; never earlier than either |
| SandboxStore.SandboxStore.SetStateAndEndAt | internal/gateway/store.go:260-279 | state and, unless unset, deadline of that record only: a restart, where the state is running |
| SandboxExpiry.Gateway.DeleteSandbox | internal/gateway/sandbox_deletion.go:20-43 | a refused required delete changes nothing; any other drops the record and then its timer |
| SandboxExpiry.Gateway.PauseSandboxLocked | internal/gateway/gateway_callbacks.go:808-819 | a pause that works marks the record and syncs its timer away; one that fails changes nothing |
| SandboxExpiry.Gateway.ReconcileSandboxRecordWithInspector | internal/gateway/gateway_callbacks.go:657-704 | the record follows the runtime: removed if gone, else with the reported state (blank keeps it), timer in step |
| SandboxExpiry.Gateway.ExpireSandboxLocked | internal/gateway/sandbox_deadlines.go:242-312 | store and timers after expiry, for every judgement of the step relation and every answer of the runtime |
| SandboxExpiry.ExpiryIsContained | internal/gateway/sandbox_deadlines.go:242-322 | expiry touches no other sandbox, changes a record only if due, and a record it leaves running has a timer armed for its deadline at the retry time, unless one was kept there |
| SandboxRecords.Enrich | internal/gateway/server.go:199-215 | a restored record keeps what it has; where it has none it is created now, ends the default time after its creation, is running, and is killed on timeout; an unknown policy is refused |
| XpcRendezvous.NoUseAfterFree | internal/backends/applecontainer/xpc_bridge.c:55-74 | the cell is freed at most once, and neither side can access it afterwards |
| XpcRendezvous.LedgerBalances | internal/backends/applecontainer/xpc_bridge.c:177-266 | when both sides are done: one free, and each retained reply handed over or released exactly once, handed over exactly on success with a reply wanted |
| XpcRendezvous.CompletionLosesToTimeout | internal/backends/applecontainer/xpc_bridge.c:236-256 | with both flags set the send fails and the reply stays with the cell until it is freed |
| XpcRendezvous.SendFailsExactlyWhen | internal/backends/applecontainer/xpc_bridge.c:220-265 | in every run, the send fails if and only if the deadline could not be computed or a wait timed out or failed |
| XpcRendezvous.NeverStuck | internal/backends/applecontainer/xpc_bridge.c:194-265 | while a side is not done some step is possible |
| TemplateBuilds.TableIsBounded | internal/gateway/template_build_manager.go:56-84 | never more tasks in the table than the limit, never two for one build, each of them current |
| TemplateBuilds.WaitGroupCountsTasks | internal/gateway/template_build_manager.go:81-111 | the wait-group count is the number of tasks reserved and not finished |
| TemplateBuilds.EachTaskIsReportedOnce | internal/gateway/template_build_manager.go:119-135 | the counts of all cancellations add up to the tasks marked; none is counted twice |
| TemplateBuilds.ShutdownIsFinal | internal/gateway/template_build_manager.go:137-161 | after shutdown returned nil, in every later state all tasks are finished, every reserve is refused as stopped, and no build reads "building" |
| TemplateBuilds.NoBuildIsStuck | internal/gateway/gateway_callbacks.go:1289-1372 | a record that reads "building" has its task at work in the table; one whose task leaves has a final status, and start logs first if it ran |
| TemplateBuilds.NoResultIsDropped | internal/gateway/gateway_callbacks.go:1349-1362 | a finished builder's task is always still current, so that its result is saved |
| TemplateBuilds.SavedIsTheResult | internal/gateway/gateway_callbacks.go:1320-1368 | in every run, the saved status is the failed one exactly if the builder gave an error or says so, or its context was done, and else what it reports, with nothing left to build; the logs are the start logs and the builder's, or the error's message |
| TemplateBuilds.NoneIsInterruptedForNothing | internal/gateway/template_build_manager.go:86-135 | before shutdown, a task at work has its context ended only if a cancellation has reported it |
| TemplateBuilds.RecordsChangeBy | internal/gateway/gateway_callbacks.go:1308-1368 | a build record changes only as its task saves its start or result, or its template is deleted, and then does |
| TemplateBuilds.TasksGoOn | internal/gateway/gateway_callbacks.go:1308-1368 | a task that has not finished always has a next step, which brings it further |
| TemplateBuildManager.TemplateBuildManager.Reserve | internal/gateway/template_build_manager.go:56-84 | grants exactly if running, not taken and below the limit, with the matching refusal otherwise |
| TemplateBuildManager.TemplateBuildManager.Complete | internal/gateway/template_build_manager.go:93-111 | leaves the table if current, ends the context, leaves the wait group: the protocol's two steps |
| TemplateBuildManager.TemplateBuildManager.CurrentTask | internal/gateway/template_build_manager.go:113-117 | whether the table has this very task under its key |
| TemplateBuildManager.TemplateBuildManager.CancelTeamBuilds | internal/gateway/template_build_manager.go:119-135 | marks and ends exactly the unmarked tasks in the table and counts them |
| TemplateBuildManager.TemplateBuildManager.BeginShutdown | internal/gateway/template_build_manager.go:137-147 | the protocol's shutdown step: all contexts end and the tasks in the table are marked |
| TemplateBuildManager.CancelTeamBuildsRuns | internal/gateway/template_build_manager.go:119-135 | in every reachable state the manager's table knows exactly the current tasks, and what CancelTeamBuilds leads to is reached by a run of the protocol |
| TemplateBuildManager.BeginShutdownRuns | internal/gateway/template_build_manager.go:137-147 | the same for BeginShutdown |
| TemplateBuildManager.WaitsForLeaving | internal/gateway/template_build_manager.go:93-111 | a task that leaves finds the wait group's count above zero |
| TemplateUploads.StoredFilesNeverChange | internal/gateway/management_store.go:417-438 | a stored file is never replaced or removed, over any run |
| TemplateUploads.TokenServesOnce | internal/gateway/management_store.go:402-451 | two successful calls with one token are the same call, and its content is what is stored |
| TemplateUploads.EveryFileHasOneOwner | internal/gateway/management_store.go:377-386 | a file is on disk if and only if a stored entry or a call in flight owns it, or its removal failed, and only one of these holds; idle, each is an entry's or could not be removed |
| TemplateUploads.StoredFilesMatchTheirHash | internal/gateway/template_files.go:171-192 | a file stored under a key that is a SHA-256 sum has that sum; no file is empty or over 512 MiB |
| TemplateUploads.AcceptedExactlyWhen | internal/gateway/management_store.go:402-451 | a commit accepts exactly if the token is pending for this template and hash and the key is free or has the same content, conflicts exactly on other content, and stores exactly if the key was free |
| TemplateUploads.CheckedExactlyWhen | internal/gateway/management_store.go:360-400 | a call is admitted exactly with a pending token, and its content goes on exactly if it has the key's sum and is a good archive |
| TemplateUploads.DigestsAre | internal/gateway/template_files.go:171-192 | which keys are sums: 64 hexadecimal digits, in any case, with or without the prefix |
| Strings.LowerChars | internal/gateway/template_files.go:171-176 | what lower case is, for the ASCII letters |
| TemplateUploads.LookupFindsOwnFile | internal/gateway/management_store.go:453-468 | without slashes in the IDs a lookup finds that template's file with that hash |
| TemplateUploads.KeyIsUniqueExactlyWhen | internal/gateway/management_store.go:550-552 | a key stands for one template and hash if and only if it splits into trimmed parts in one place |
| TemplateUploads.SlashesCollide | internal/gateway/management_store.go:550-552 | two templates that share a key |
| TemplateUploadStore.TemplateUploadStore.CreateTemplateFileUpload | internal/gateway/management_store.go:332-349 | the token is good for fifteen minutes, and not after |
| TemplateUploadStore.TemplateUploadStore.Commit | internal/gateway/management_store.go:402-451 | the second critical section is the protocol's commit; the file is kept exactly if the store changed |
| TemplateUploadStore.TemplateUploadStore.StoreTemplateFileUploadReader | internal/gateway/management_store.go:355-451 | an uninterrupted call: the answer, the token, the stored files and the temporary directory, for every content, time and failure |
| TemplateUploadStore.CallRuns | internal/gateway/management_store.go:355-451 | in the protocol, the steps of one call lead to exactly what the method promises, from any state |
| TemplateOverlay.ManagementStore.UpsertTemplate | internal/gateway/management_store.go:89-162 | the template is stored under its trimmed ID with the last known logs and creation time, and no longer deleted; a blank ID is ignored |
| TemplateOverlay.ManagementStore.DeleteTemplate | internal/gateway/management_store.go:174-195 | the template is gone and marked deleted |
| TemplateOverlay.ManagedAndDeletedAreDisjoint | internal/gateway/management_store.go:141-147 | after any operations no ID is both managed and deleted |
| TemplateOverlay.LastOperationWins | internal/gateway/management_store.go:89-205 | an ID is managed exactly if its last operation was an upsert, with that build and status, and deleted exactly if it was a deletion |
| TemplateOverlay.StoreRemembers | internal/gateway/management_store.go:89-162 | after any operations, a managed template is as last upserted, with the last creation time given for its build; its logs are the last that were not empty, and each build named since the last deletion is as it was then |
| TemplateOverlay.ListTemplates | internal/gateway/gateway_callbacks.go:1088-1117 | the loops with the index map give the overlay of managed over runtime templates |
| TemplateOverlay.OverlayOverrides | internal/gateway/gateway_callbacks.go:1106-1115 | the list is a map override: a managed template wins over the runtime's |
| TemplateOverlay.EachIdOnce | internal/gateway/gateway_callbacks.go:1094-1116 | no ID twice if and only if the runtime lists none twice |
| TemplateOverlay.ListAfterOperations | internal/gateway/gateway_callbacks.go:1088-1117 | for any operations before the deleted IDs are read and any between that and the managed templates: no ID twice, none deleted at the first reading, the managed template where there is one at the second and else the runtime's; runtime order first and then by creation time |
| TemplateOverlay.UndisturbedListing | internal/gateway/gateway_callbacks.go:1088-1117 | with no operation in between it lists the managed template for IDs last upserted, nothing for IDs last deleted, and the runtime's for all others |
| TemplateOverlay.BetweenTheReadings | internal/gateway/gateway_callbacks.go:1094-1106 | a template deleted in between is listed if the runtime has it; a deleted one stored anew in between is not listed |
| VolumePublish.TargetsAreWhole | internal/backends/docker/volumes.go:236-305 | a client's name denotes what it did at the start, unchanged, or the whole body of one writer that aimed at it |
| VolumePublish.OpenFilesNeverChange | internal/backends/docker/volumes.go:275-304 | the file behind a client's name is never written again, whatever becomes of the name |
| VolumePublish.CreateOnlyOnce | internal/backends/docker/volumes.go:296-303 | of the writers without force at most one succeeds on a name, none if it was taken; each removal lets in one more |
| VolumePublish.NoTemporaryIsLeft | internal/backends/docker/volumes.go:283-290 | a temporary name belongs to exactly one writer at work, or its removal failed; none but these is left when all are done |
| VolumePublish.PublicationTakesEffect | internal/backends/docker/volumes.go:291-303 | a publication puts the writer's whole body under its target, without force only if the name was free |
| VolumePublish.NamesChangeBy | internal/backends/docker/volumes.go:283-303 | a client's name changes exactly by a publication under it or its removal, and these take effect |
| VolumeDirectory.VolumeDirectory.WriteTempFile | internal/backends/docker/volumes.go:702-747 | the temporary file is complete, or its name is gone or could not be removed |
| VolumeDirectory.VolumeDirectory.WriteVolumeFile | internal/backends/docker/volumes.go:236-305 | outcome, answer and directory after an uninterrupted write, whichever of its calls fail: a whole new file under the name, or no client's name changes; a temporary name stays exactly if it cannot be removed and no rename took it |
| VolumeDirectory.WriterRuns | internal/backends/docker/volumes.go:236-305 | in the protocol, the steps of one writer lead to exactly what the method promises, in any directory and whichever calls fail |
| VolumePaths.CleanVolumeContentPath | internal/backends/docker/volumes.go:621-652 | the loop computes the cleaned path or the refusal that the lemmas below characterise |
| VolumePaths.CleanedPathIsTheWalk | internal/backends/docker/volumes.go:621-652 | the elements of a cleaned path are where its raw elements walk to from the root, all proper, without NUL or backslash |
| VolumePaths.CleaningIsIdempotent | internal/backends/docker/volumes.go:621-652 | a cleaned path is cleaned to itself |
| VolumePaths.RefusalsAre | internal/backends/docker/volumes.go:621-652 | exactly which paths are refused, and for what |
| VolumePaths.ReservedIsFirstElement | internal/backends/docker/volumes.go:654-665 | a path is reserved if and only if its first element is the metadata name up to case |
| VolumePaths.ReservedIsHidden | internal/backends/docker/volumes.go:860-863 | a reserved name is left out of listings |
| VolumePaths.HiddenButNotReserved | internal/backends/docker/volumes.go:860-863 | a name that listings leave out is allowed in paths if and only if it holds a long s |
| VolumePaths.ContainmentIsExact | internal/backends/docker/volumes.go:839-849 | a link's target is accepted if and only if it is relative and no prefix of its walk from the link's directory leaves the root |
| VolumeLinks.WalkStaysBelow | internal/backends/docker/volumes.go:817-824 | whatever links are followed below an opened root, what is found lies below it |
| VolumeLinks.PathsLead | internal/backends/docker/volumes.go:321-327 | where a path leads: to the node at the end of its way down, to nothing, nowhere past a file, or on with a link's target in place of its name |
| VolumeLinks.TargetsAre | internal/backends/docker/volumes.go:817-824 | which elements a target has: those it is written with, and a directory asked for by a separator or dot at its end |
| VolumeLinks.WiderRootAgrees | internal/backends/docker/volumes.go:337-343 | a root further up finds the same, unless the narrower root is climbed out of |
| VolumeLinks.TextTellsClimbing | internal/backends/docker/volumes.go:839-849 | for a walk that meets no further link, the test on the target's text says whether it climbs out |
| VolumeLinks.SelfLinkLoops | internal/backends/docker/volumes.go:817-824 | a link to itself is an error, however many links may be followed |
| VolumeListing.VolumeEntryStat | internal/backends/docker/volumes.go:789-837 | an entry of the opened directory: an error exactly if it is a link that cannot be followed there, and a target only if the text stays in the volume |
| VolumeListing.CollectVolumeDirEntries | internal/backends/docker/volumes.go:851-890 | the recursion appends to the caller's list what Collect describes, or fails as it does, each directory being the root for its own links |
| VolumeListing.ListVolumeDir | internal/backends/docker/volumes.go:307-350 | the answer for every volume, path and depth, errors included |
| VolumeListing.ListingAnswers | internal/backends/docker/volumes.go:307-350 | for every volume, path and depth: an exact listing of a directory, or the error of a path that cannot be followed, of a node that is no directory, of a depth over ten, or of a link within reach, of the kind that fits |
| VolumeListing.ListingIsExact | internal/backends/docker/volumes.go:307-350 | a listing that does not fail holds exactly the paths of 1 to depth elements reached through real directories and past no hidden name, each once, in order |
| VolumeListing.ListingFailsWhen | internal/backends/docker/volumes.go:334-343 | a listing fails if and only if the depth is over the limit or, within reach, a link's target is absolute, dangling, endless, or climbs above the link's own directory |
| VolumeListing.OnlyClimbingIsRefused | internal/backends/docker/volumes.go:874-880 | a link that can be followed from the volume's root is followed to the same end from its own directory, or climbs above it |
| VolumeListing.LinkInsideTheVolumeFailsTheListing | internal/backends/docker/volumes.go:817-824 | with `a/link` leading to `../f` the path is accepted from the volume's root and its target shown, and listing `a`, or the volume to depth 2, fails |
| ShellQuoting.QuotingIsUndone | internal/backends/orbstack/cloud_init.go:105-110 | wherever a quoted value stands outside quotes, the shell reads back exactly that value within one word |
| ShellQuoting.QuotedIsOneWord | internal/backends/orbstack/cloud_init.go:105-110 | a quoted value alone is one command of one word |
| ShellQuoting.QuotingIsInjective | internal/backends/orbstack/cloud_init.go:105-110 | different values are quoted differently |
| ShellQuoting.SshHandsOver | internal/backends/orbstack/vm_client.go:515 | the outer quoting hands any script to the login shell as it is |
| ShellQuoting.VmPathIsTheWalk | internal/backends/orbstack/vm_client.go:614-620 | a client's path is refused exactly if it is blank, and else becomes the root and the place to which its elements walk |
| ShellQuoting.CleanPathsStay | internal/backends/orbstack/vm_client.go:614-620 | a clean absolute path is taken as it is |
| ShellQuoting.BlankIsRefused | internal/backends/orbstack/vm_client.go:287-399 | the four operations refuse a blank path |
| ShellQuoting.OctalReads | internal/backends/orbstack/vm_client.go:299-362 | a mode is printed as a zero and three octal digits that read as its permission bits |
| ShellQuoting.MkdirAllRuns | internal/backends/orbstack/vm_client.go:287-307 | through both quoting levels the script runs exactly these commands on the place that the path names, with mode 0755 if none is given |
| ShellQuoting.RemoveAllRuns | internal/backends/orbstack/vm_client.go:309-325 | the same for a removal, which is refused exactly for the root |
| ShellQuoting.WriteFileRuns | internal/backends/orbstack/vm_client.go:346-370 | the same for the whole script that stages standard input and installs it, with mode 0644 if none is given and its parent directory made first |
| ShellQuoting.SymlinkRuns | internal/backends/orbstack/vm_client.go:372-399 | the same for a link, which is refused exactly for the root or a blank target |
| SandboxPages.ListSandboxes | internal/gateway/gateway_callbacks.go:492-543 | the loops compute the page that the lemmas below characterise |
| SandboxPages.MetadataMatches | internal/gateway/gateway_callbacks.go:2420-2430 | true exactly if every filter key has its value, an absent key reading as empty |
| SandboxPages.PagesPartitionTheList | internal/gateway/gateway_callbacks.go:508-543 | with one order of the map, following the tokens ends, and the pages together are the filtered list, all but the last holding the limit, which is 100 if none from 1 to 100 is given; each has the count of the matching sandboxes that run |
| SandboxPages.FilteredIsExact | internal/gateway/gateway_callbacks.go:500-511 | the filtered list holds exactly the sandboxes that have each metadata value asked for, an absent key reading as empty, and a state asked for, in the list's order |
| SandboxPages.RunningAreCounted | internal/gateway/gateway_callbacks.go:502-507 | the running count is the number of sandboxes that match the metadata and run, whatever states are asked for |
| SandboxPages.ListIsDeterminedExactlyWhen | internal/gateway/store.go:163-177 | the list does not depend on the order in which the map is walked if and only if no two sandboxes have one creation time |
| SandboxPages.SessionsAreCompleteExactlyWhen | internal/gateway/gateway_callbacks.go:492-543 | with every request walking the map afresh, every client that follows the tokens gets exactly the filtered list, for all limits and filters, if and only if no two sandboxes have one creation time |
| SandboxPages.SessionsEndExactlyWhen | internal/gateway/gateway_callbacks.go:513-541 | with every request walking the map afresh, following the tokens ends, after at most one page more than there are sandboxes, if and only if no two sandboxes of one creation time have a third that is not older; else a client can be kept asking for ever |
| SandboxPages.EqualTimesLoseASandbox | internal/gateway/store.go:163-177 | for any two sandboxes of one creation time there are walks and a limit with which a client sees the one and never the other |

## Left out

- LifecycleTerminal.TerminalExpiryAnswersNotFound: speaks of answers given; that a request is answered at all, as that a lock is obtained or a retry works, would need fairness.
- LifecycleOrphans.NoSandboxIsOrphaned: a runtime create that fails is taken to have made nothing.
- SandboxStore.SandboxStore.Create: the ID that is generated for a blank one is not modelled; the caller gives it.
- SandboxStore.SandboxStore.SetStateAndEndAt: the runtime information and the URL that are written with them are not modelled.
- SandboxPages.ListSandboxes: the reconciliation it starts with is that of `Lifecycle`, and left out here.
- TemplateOverlay.ManagementStore.UpsertTemplate: tags and update times are not modelled.
- ShellQuoting.WriteFileRuns: how the shell reads the script, as for the others; what the commands then do is not modelled.
- VolumePublish.TargetsAreWhole: speaks of the gateway's writers; a sandbox that writes through its mount is no step.
- VolumePublish.OpenFilesNeverChange: likewise; a sandbox that writes through its mount could change an open file.
- VolumePublish.NoTemporaryIsLeft: the removal of the whole directory is not modelled.
- VolumeLinks.WalkStaysBelow: a separator after a link's own name, and Go's limits on steps and restarts, are not modelled.
- VolumePaths.ContainmentIsExact: for a Unix file system; drive letters and Windows separators in targets are not modelled.
- TemplateBuilds.NoBuildIsStuck: for a starter that keeps the template and build IDs, and no other writer of the same build record than the template's deletion.
- Runtime information of a record (addresses, ports, container names), its metadata in the lifecycle and the merging of cached records: the protocol does not branch on them.
- Request validation before the lock is taken, HTTP status codes and messages beyond the four outcomes.
- The `lockSandbox` loop and the request handlers as methods: they are steps of `Lifecycle`, since what matters is their interleaving.
- Time limits of runtime calls and of shutdown: the environment may let either fail at any moment.
- Go's memory model below mutexes, and the C library's mutexes, conditions and allocation failure in the XPC bridge.
- Template tags, per-build listings, team and node state, metrics, snapshots and logs: easy members.
- SHA-256, gzip and tar: a digest is a value, and whether an archive is valid is an input.
- File modes, owners and the metadata file of volumes; directories created on the way to a file.
- systemdQuote and the YAML text of cloud-init; no round trip is claimed for them.
- `sort.Slice` does not promise an order among equal keys; insertion sort, which Go uses for short slices, stands for it.
