# Rune in Dafny

Rune deploys releases ("casts") of services, secrets, configmaps and volumes to a cluster. This project
models the parts of it in which a mistake is hard to see, and proves what they promise.

- **The release engine.** `Services`, `Resources`, `ServerState` and `Views` say what the records are, what
  their two hashes see, and what applying, pruning and reverting does to one record. `Execution`, `Planning`,
  `Reconcile` and `Uninstalling` put these together into whole casts and uninstalls. Store faults, reads that
  fail, verification and the control plane's own writes are inputs, so a statement about a run is a statement
  about every run. `Restoration` and `Rollback` prove atomic rollback, `CastSafety` the order of execution and
  the record, `Deployment` what is then there, `Ownership` and `Histories` that records tell the truth,
  `Counters`, `Lives`, `Outranking` and `Recasting` that generation counters do, `Teardowns` what becomes of
  deletes by an operator. `Appliers` and `Casting` are the same operations as objects that change in place,
  proved to do what the functions say. `Limits` holds the promises that fail, each with the exact condition.
- **The store.** `UpdateFunc` is the optimistic read-mutate-commit loop against the locked one. `WatchPump` and
  `WatchFanout` are watch delivery.
- **The event log.** `SeqCodec`, `EventLog`, `EventPaging`, and the `Recorder` object in `EventRecorder`.
- **Algorithms.** `CycleDetection`, `LogQL` with `LogQLRoundTrip` and `LogQLParser`, `Templates` with
  `TemplateScanning` and `TemplateRestoring`, `Refs`, `Stall`.

Hashes are taken to be injective, so comparing hashes is comparing views. Every store call is one
transaction: it takes effect or fails without effect. Fields that the modelled code only copies are bundled.
Mounts and dependencies are sorted stably here; the source's sort is not stable in general, so where mounts with
one key differ, the "only if" half of the reordering results speaks for the model's sort.
`dafny verify dfyconfig.toml` checks everything.

Where the code and its comments disagree, the model follows the code:

- The release revision goes up with every recorded cast, failed ones too, not only with successful ones.
- A folded event is not delivered again when its count changes (`EventPaging.FoldIsNotRedelivered`).
- An uninstall that failed half way cannot be completed by retrying (`Limits.RetriesNeverComplete`).
- Progress is judged before the high-water marks are raised, not after.

## Model

| member | source | states |
|---|---|---|
| Services.ReorderingMountsKeepsHashes | pkg/types/service.go:1069-1125 | secret, configmap and volume mounts can be reordered without moving either hash as long as mounts that share a sort key look alike; volumes with one key must be the same |
| Services.ReorderingEqualKeysMovesTheTemplate | pkg/types/service.go:1116-1125 | an example where the order shows: two volume mounts with the same name and path but not the same shape |
| Services.ReorderingKeepsTemplateIff | pkg/types/service.go:1069-1125 | every reordering of mounts keeps the template view if and only if mounts that share a sort key look alike to it, for each of the three lists |
| Services.MountOrderIsHiddenIff | pkg/types/service.go:1080-1114 | the view of secret or configmap mounts is the same for every order of them if and only if mounts with one name, path and source agree |
| Services.VolumeOrderIsHiddenIff | pkg/types/service.go:1116-1125 | the same for volume mounts with one name and path and their shapes |
| Services.LiveEditsMoveOnlyTheFullHash | pkg/types/service.go:944-1055 | editing only claim template bodies or the liveness threshold keeps the template hash, and keeps the full hash if and only if nothing changed, mounts with equal keys included |
| Services.VipIsInvisible | pkg/types/service.go:1057-1067 | allocating, changing or releasing a VIP moves neither hash |
| Views.TemplateSees | pkg/types/service.go:944-969 | equal template hashes mean equal image, command and the like, equal GPU up to zero meaning one, equal health up to the liveness threshold, and the same mounts and volume shapes in some order, items included; and the other way round where no two mounts with one sort key differ |
| Views.HashSees | pkg/types/service.go:971-991 | equal full hashes also mean equal health, scale and everything else a controller acts on, the same dependencies in some order, the same network rules, discovery fields and claim templates |
| Views.DependenciesSee | pkg/types/service.go:1127-1155 | dependencies are seen up to their order and only up to it |
| Views.ChangesAreCounted | pkg/releasectl/controller.go:787-833 | a cast that changes what an instance is built from raises both counters of a live service, and one that changes anything a controller acts on raises Generation |
| Resources.KeyIdentifies | pkg/types/release.go:120-122 | the string key of a reference identifies it, for kinds and namespaces without a slash; the model's maps use the reference itself |
| Planning.BuildPlan | pkg/release/plan.go:138-209 | the loops compute the three-way plan, and fail exactly when a desired, unrecorded, non-shared reference cannot be looked up |
| Planning.Applyable | pkg/release/plan.go:66-74 | true if and only if no planned change carries a conflict |
| Planning.HasPrune | pkg/release/plan.go:86-94 | true if and only if some planned change is a prune |
| CastSafety.PlanIsExact | pkg/release/plan.go:138-209 | every plan is the desired list in order, one change each, followed by exactly the recorded references no longer desired; only shared kinds are referenced, and the owned set is the desired set without them |
| CastSafety.ConflictsAreExact | pkg/release/plan.go:151-194 | a conflict is reported if and only if a live resource is neither recorded nor stamped as ours and adoption was not asked for |
| CastSafety.ActionsAreExact | pkg/release/plan.go:151-194 | a reference is updated if the record or the live stamp says it is ours, created if it is not there, adopted if it is there without our stamp; a conflict names the owner found |
| CastSafety.LookupIsExact | pkg/releasectl/controller.go:216-250 | the lookup finds a service, going away or not, a secret, configmap or volume, with its owner, and nothing after a failed read |
| CastSafety.ReplanningIsAFixpoint | pkg/release/plan.go:138-209 | planning the same desired set after it was deployed yields only updates and references, whatever the cluster looks like |
| Casting.PartitionOwnership | pkg/release/reconcile.go:275-285 | splits a plan into owned and referenced, in plan order |
| Casting.SplitForExecution | pkg/release/reconcile.go:290-313 | splits a plan into applies and prunes and sorts each |
| CastSafety.ExecutionListIsOrdered | pkg/release/reconcile.go:290-333 | nothing is applied before what it needs, in the order namespaces, storage classes, volumes, configmaps, secrets, services, rest, nor pruned before what needs it, by key where neither needs the other, with nothing added or lost |
| Casting.PrepareCast | pkg/release/reconcile.go:98-161 | planning, admission, conflict check, detach check and pending record in that order; a rejected plan leaves the records as they were |
| CastSafety.RejectionsAreExact | pkg/release/reconcile.go:98-161 | each of the five reasons for a rejection is given exactly when it applies and no earlier one does |
| Casting.CastExecution.Fail | pkg/release/reconcile.go:205-222 | an atomic failure rolls back and restores the recorded ownership unless some revert failed; a failure that is not atomic changes nothing more in the cluster |
| Casting.CastRelease | pkg/release/reconcile.go:98-222 | prepare, run, fail and record together leave exactly the cluster, records, outcome and trace of the function `Cast` that the theorems are about |
| CastSafety.EveryCastIsSafe | pkg/release/reconcile.go:98-222 | for every cast and every failure: no prune before every apply and the check succeeded, nothing applied before what it needs or pruned before what needs it, only the last step may have failed, a detached cast never prunes, a deployed record means every step succeeded, a rejected cast changes nothing |
| CastSafety.CastIsRecorded | pkg/release/reconcile.go:130-222 | what every cast leaves in the record: revision one higher, status Deployed if and only if every step succeeded and the outcome was saved, Failed if something went wrong, Pending if it was not saved; it lists the desired references in order, except that a complete and saved rollback puts both lists back |
| CastSafety.RunStopsAtFailure | pkg/release/reconcile.go:174-203 | a run that does not complete stops at its first failure, and a change that failed counts among those to revert |
| CastSafety.RollbackGoesBackwards | pkg/release/reconcile.go:260-271 | a rollback reverts exactly what was changed, references aside, and the later change first |
| Deployment.DeployedCastDelivers | pkg/release/reconcile.go:174-203 | after a deployed cast every service, secret, configmap and volume it desired is there with its payload and stamp, and every one that the release owned and no longer desires is gone or going away |
| Appliers.CarryServerState | pkg/releasectl/controller.go:787-833 | overwriting the rendered record field by field gives the stored identity and server state on the new spec, with the counters advanced by what moved |
| Appliers.Applier.CaptureImage | pkg/releasectl/controller.go:289-297 | first touch wins |
| Appliers.Applier.NoteGenerations | pkg/releasectl/controller.go:480-492 | keeps the highest generations this cast has written |
| Appliers.Applier.ApplyServiceRecord | pkg/releasectl/controller.go:335-387 | one service applied: refused, updated with its pre-image captured, or created, as the step function says |
| Appliers.Applier.ApplyDurableRecord | pkg/releasectl/controller.go:388-426 | one secret, configmap or volume applied, a read error being taken for absence |
| Appliers.Applier.Apply | pkg/releasectl/controller.go:332-433 | dispatches on the kind; shared and unknown kinds succeed without effect |
| Appliers.Applier.CapturePreDelete | pkg/releasectl/controller.go:538-565 | snapshots before a delete, recording absence on a read error |
| Appliers.Applier.Prune | pkg/releasectl/controller.go:435-478 | snapshot, delete, and the mark that this cast requested the teardown unless it found one in place |
| Appliers.Applier.RestoreService | pkg/releasectl/controller.go:618-695 | reverting a service that existed: carried over the live record with the VIP kept, recreated above every counter if our own prune removed it, left alone if somebody else's teardown did |
| Appliers.Applier.RestoreDurable | pkg/releasectl/controller.go:696-719 | reverting a secret, configmap or volume that existed: updated or recreated |
| Appliers.Applier.Revert | pkg/releasectl/controller.go:573-723 | nothing without a pre-image; deletion of what the cast created; restoration otherwise |
| Deployment.DurableApplyWrites | pkg/releasectl/controller.go:388-426 | a successful apply of a secret, configmap or volume writes the payload under the stamp, with ID and phase where they are kept; versions count the writes and a volume keeps its ID |
| Deployment.DurableApplySucceedsIff | pkg/releasectl/controller.go:388-426 | when such an apply succeeds |
| Deployment.ServiceApplySucceedsIff | pkg/releasectl/controller.go:335-387 | when an apply of a service succeeds |
| Deployment.UpdateWrites | pkg/releasectl/controller.go:787-833 | an apply onto a live service writes spec, discovery fields and stamp, keeps identity, VIP, certificate and the rest of the server's state, and resets what is observed |
| Deployment.CreateWrites | pkg/releasectl/controller.go:378-387 | a create writes spec, discovery fields and stamp and starts everything else |
| Deployment.TombstoneMarks | pkg/orchestrator/service/service_controller.go:1203-1214 | a delete only marks the record, with volumes to clean up if and only if some mount claims one, and deleting again changes nothing |
| Deployment.RecreatedIsPreImage | pkg/releasectl/controller.go:663-695 | a recreated record is the pre-image, identity included, without VIP, certificate and teardown |
| Deployment.RewoundKeepsServerState | pkg/releasectl/controller.go:629-662 | a rewritten record keeps the server's state, and lifting a teardown clears its finalizers |
| Deployment.RecreatedCounts | pkg/releasectl/controller.go:677-695 | a recreated record goes above every generation, but its template counter moves only if the cast had moved it |
| Deployment.NotedIsHighest | pkg/releasectl/controller.go:480-492 | the cast remembers the highest counters it has written |
| Deployment.StepsSucceedIff | pkg/releasectl/controller.go:435-695 | when a prune and a revert of a service report success, the swallowed read of what the cast created included |
| Deployment.DurableStepsSucceedIff | pkg/releasectl/controller.go:435-723 | the same for secrets, configmaps and volumes |
| Deployment.FailuresChangeNothing | pkg/releasectl/controller.go:335-695 | a step that fails leaves the service as it was, and an update that fails leaves no pre-image |
| Deployment.DurableFailuresChangeNothing | pkg/releasectl/controller.go:388-723 | the same for secrets, configmaps and volumes |
| Appliers.Applier.RevertChanges | pkg/release/reconcile.go:260-271 | reverse order, references skipped, failures counted and none stopping the rest; the ghost order is the one that `RollbackGoesBackwards` is about |
| Appliers.Applier.Run | pkg/release/reconcile.go:174-203 | applies, check, prunes; the list of done changes includes the failing one, and the ghost trace is the one that the safety theorem is about |
| Restoration.RewoundKeeps | pkg/releasectl/controller.go:629-662 | a reverted record has the pre-image's spec, owner and discovery fields, the live identity and VIP, and is torn down only if a teardown this cast did not request is under way |
| Restoration.RevertRestoresService | pkg/releasectl/controller.go:573-695 | from any slot whose pre-image was read truthfully, a revert that reports success has restored the service if and only if it did not have to remove it on a failed read |
| Restoration.RevertRestoresDurable | pkg/releasectl/controller.go:573-723 | the same for secrets, configmaps and volumes: data, owner, and ID and phase where they are kept |
| Rollback.RunKeepsSlot | pkg/release/reconcile.go:174-203 | every run, wherever it stops and whatever it meets, keeps the invariant that makes the later revert possible |
| Rollback.AtomicRollback | pkg/release/reconcile.go:174-222 | for every plan, failure point, fault and interference of the run and of the rollback: once every revert of a resource has reported success, it is back to its pre-cast state if and only if it was misread before the cast and passed over by the rollback, or neither; misread means live with a failed first read, passed over means held for absent, present, and every revert read failed |
| Limits.TransientReadDeletesSecret | pkg/releasectl/controller.go:388-400 | the failing case: one failed read of a secret, a reported rollback, and the secret is gone |
| Limits.FailedRevertReadKeepsSecret | pkg/releasectl/controller.go:586-616 | the other failing case: a created secret, a failed read in the rollback, a reported rollback, and the secret stays |
| Counters.CarryFollows | pkg/releasectl/controller.go:787-833 | a carry never moves a counter back, and moves TemplateGeneration exactly when the template moves |
| Counters.CountersAreFaithful | pkg/releasectl/controller.go:348-695 | through every allowed sequence of operations on one service: 1 <= TemplateGeneration <= Generation, neither ever decreases, equal TemplateGeneration means equal template views |
| Counters.RevertOutranksApply | pkg/releasectl/controller.go:618-662 | for one apply and one revert: TemplateGeneration ends strictly above what apply stamped if apply changed the template, and unchanged if it did not |
| Outranking.RolledBackCastOutranks | pkg/release/reconcile.go:174-271 | the same for every cast that applies the service and is rolled back, however often it was applied and reverted and whatever the control plane wrote in between |
| Counters.FoundTeardownIsNotLifted | pkg/releasectl/controller.go:435-478 | a teardown the cast found in place, read or not, is still under way after the revert |
| Teardowns.TeardownIsLiftedIff | pkg/releasectl/controller.go:435-695 | for every interleaving of a cast with deletes by an operator: a service that is gone or going away when the rollback begins stands after it if and only if this cast pruned it itself, having found it standing, and its last successful revert came after the operator's last delete |
| Teardowns.RunMayLiftIff | pkg/releasectl/controller.go:435-478 | the pre-image claims a teardown for this cast if and only if some prune of it took effect on a service that existed and was not going away when first touched |
| Teardowns.FoundTeardownStays | pkg/releasectl/controller.go:435-695 | a service that a cast finds gone or going away, and does not apply, is never brought back by its prunes and rollback |
| Teardowns.CastIsRunThenRollback | pkg/release/reconcile.go:174-271 | every cast, seen from one service, is such a run and rollback |
| Counters.TeardownDuringPruneIsLifted | pkg/releasectl/controller.go:435-465 | a teardown that starts between the snapshot and the delete of one prune is taken for the cast's own and lifted |
| Counters.IdentityIsRestored | pkg/releasectl/controller.go:797-799 | the ID survives a cast and its revert if and only if the record had one or the payload brought none |
| Counters.CastingTwiceMovesNoCounter | pkg/releasectl/controller.go:787-833 | applying the same payload again, whatever the control plane published in between, moves neither counter |
| Recasting.RecastingMovesNoCounter | pkg/release/reconcile.go:98-271 | once a cast has deployed a service, no history in which every deed leaves it alone or casts the same payload again moves either counter, whether those casts are deployed, rejected, left failed or rolled back |
| Recasting.CompleteRunHolds | pkg/release/reconcile.go:174-203 | after a complete run that applies it, a service is standing and holds exactly its payload |
| Recasting.RunKeepsHolding | pkg/release/reconcile.go:174-203 | a run that applies the payload a service holds already keeps its spec, its discovery fields and both counters, wherever the run stops |
| Recasting.RollbackKeepsHolding | pkg/release/reconcile.go:260-271 | so does the rollback of such a run |
| Counters.MergeIsIdempotent | pkg/types/discovery_merge.go:5-25 | merging the same discovery update again changes nothing but possibly the VIP |
| Lives.RunProjects | pkg/release/reconcile.go:174-203 | every run does to one service exactly the operations `RunOps`, all of them allowed, and begins no new life for a service that was live before |
| Lives.RevertProjects | pkg/release/reconcile.go:260-271 | every rollback does to it exactly the operations `RevertOps`, given the headroom that every run leaves |
| Lives.RunsLeaveHeadroom | pkg/release/reconcile.go:174-203 | no run leaves a pre-image that is both applied and pruned, so that recreating a pruned service keeps the counters faithful even at the int64 limit |
| Counters.RecreatedFollowsIff | pkg/releasectl/controller.go:663-695 | at the int64 limit a recreated record follows the last one if and only if the cast applied no newer template, or the last template counter is below the limit, or the template is the same |
| Lives.DeedIsAccountedFor | pkg/release/reconcile.go:98-271 | one deed moves the account of a service by exactly its operations `DeedOps`, and never takes its counters back while it stands |
| Lives.CountersOverHistories | pkg/release/reconcile.go:98-271 | over whole histories of casts, uninstalls and control-plane writes the account of a service is moved by exactly the operations of each deed and stays faithful at every moment, and no deed takes back the counters of a service that was standing before it and is there after it |
| Ownership.CompleteRunStamps | pkg/release/reconcile.go:174-203 | a complete run stamps what it applied, unstamps what it pruned and leaves every other stamp alone |
| Ownership.DeployedCastOwnsItsStamps | pkg/release/reconcile.go:130-203 | a deployed cast's record owns exactly the live resources stamped with the release |
| Ownership.DeployedCastLeavesOthersAlone | pkg/release/plan.go:138-209 | without adoption and on a truthful lookup a deployed cast touches no other release's stamps |
| Ownership.RolledBackCastKeepsOwnership | pkg/release/reconcile.go:205-222 | a rolled back cast restores the recorded ownership if its closing record was saved and otherwise leaves that of the plan; either way, and even if some reverts failed, it changes no stamp in the cluster except of a resource whose own reverts failed or that run and rollback read inconsistently |
| Uninstalling.ReverseDependencyOrder | pkg/releasectl/plan.go:111-135 | the in-place insertion sort computes the deletion order |
| Uninstalling.DeletionOrderSorts | pkg/releasectl/plan.go:108-135 | services first, then secrets, configmaps and volumes, then the rest, with nothing added or lost |
| Uninstalling.DeletionOrderIsStable | pkg/releasectl/plan.go:128-135 | references of one kind keep their recorded order |
| Uninstalling.UninstallIsRecorded | pkg/releasectl/plan.go:57-106 | a completed uninstall removes the record if and only if it was asked to purge and otherwise leaves it Uninstalled and owning nothing; a failed one leaves it as it was but for the mark |
| Casting.PruneAll | pkg/releasectl/plan.go:82-95 | the prune loop skips volumes to keep and stops at the first failure |
| Casting.Uninstall | pkg/releasectl/plan.go:57-106 | the whole uninstall leaves the cluster, records and result of the function the theorems are about |
| Histories.UninstallEmptiesOwnership | pkg/releasectl/plan.go:57-106 | a successful uninstall leaves a true, empty record if and only if it did not keep volumes that the release owned |
| Histories.OwnershipOverHistories | pkg/release/reconcile.go:98-222 | after any history of casts and uninstalls of any releases with distinct names, each rejected or carried through, every record owns exactly the live resources stamped with its release and no shared kind; a rolled back cast may have lost its closing record if it asked for what the release owned already |
| Limits.FailedCastRecord | pkg/release/reconcile.go:130-161 | a failed cast that is not rolled back records the truth if and only if everything desired was owned before or got applied and everything dropped got pruned |
| Limits.RecordAfterRollback | pkg/release/reconcile.go:205-254 | after a rollback that was incomplete or not recorded, the record tells the truth about a cleanly undone resource if and only if it is desired exactly when it was owned before |
| Limits.UnsavedRollbackRecordIff | pkg/release/reconcile.go:205-254 | a rolled back cast whose closing record was not saved leaves a true record if and only if it asked for exactly what the release owned before |
| Limits.UnsavedRollbackOwnsNothing | pkg/release/reconcile.go:246-254 | an example where it is not: a first cast, rolled back, whose pending record goes on listing what was never kept |
| Limits.DeployedRecordIsTrue | pkg/releasectl/controller.go:427-432 | a deployed cast records the truth if and only if it asked for supported kinds only |
| Limits.DeployedCastTakesWhatItDesires | pkg/release/plan.go:138-209 | a deployed cast takes from another release exactly the desired resources stamped with it |
| Limits.AdoptionBreaksTheOtherRecord | pkg/release/plan.go:176-194 | the other release's record stays true if and only if nothing desired was its own |
| Limits.FailedLookupHidesConflict | pkg/releasectl/controller.go:216-250 | a resource of another release is reported as a conflict if and only if its lookup did not fail |
| Limits.HalfwayIsStuck | pkg/releasectl/plan.go:82-95 | an uninstall that fails after removing something leaves a record that lists what is gone |
| Limits.StuckUninstallFails | pkg/releasectl/plan.go:82-95 | a record that lists what is gone makes every further uninstall that has to remove it fail, whatever happens around it |
| Limits.RetriesNeverComplete | pkg/releasectl/plan.go:89-93 | so no sequence of retries, of whatever flags as long as they cover the missing resource, with any control-plane writes in between, ever completes, although the code leaves the release to be retried |
| Limits.UninstallCompletesIff | pkg/releasectl/plan.go:57-106 | an admitted uninstall without write failures completes if and only if everything it has to remove is there and nothing but services is listed twice |
| Limits.DuplicateIsNeverUninstalled | pkg/releasectl/plan.go:82-95 | a record that lists a secret twice: the uninstall fails after deleting it and is stuck for good |
| UpdateFunc.Record.UpdateFunc | pkg/store/badger_store.go:326-397 | the retry loop answers like the locked call on the value that rivals had left by then, whatever the target held before: not found, rejected, skipped or committed as the mutation says; unless all 101 attempts were overtaken |
| UpdateFunc.OptimisticRefinesLocked | pkg/store/badger_store.go:326-397 | every interleaving of any number of callers and rival writers is, seen from outside, a run of the locked store in which each call takes effect at one point |
| UpdateFunc.StepRefines | pkg/store/memory_store.go:220-269 | each step is at most one step of the locked store |
| UpdateFunc.NoLostUpdate | pkg/store/badger_store.go:326-397 | the stored value is the fold of the committed mutations in commit order, each on exactly the value then stored, and each call is in that fold once if it committed and never otherwise |
| UpdateFunc.NobodyGivesUp | pkg/store/badger_store.go:315-318 | with at most 101 callers and no other writer nobody exhausts the retries, whichever of them fail on the way |
| UpdateFunc.OneMoreCanGiveUp | pkg/store/badger_store.go:315-318 | the bound is tight: among any 102 callers that write, one can be overtaken 101 times and exhausts its retries |
| UpdateFunc.MergeDecodeIsExactIff | pkg/store/util.go:87-108 | decoding without the reset shows the stored value if and only if everything left over, in structs, maps and lists at any depth, is also stored; with the reset always |
| WatchPump.NonLossyDelivery | pkg/store/badger_store.go:610-698 | in every interleaving delivered, in-flight and backlog make up the enqueued sequence in order; delivered is always a prefix; a waiting pump with a backlog has a wake-up on its way |
| WatchPump.EveryScheduleDrains | pkg/store/badger_store.go:638-692 | without new events or a stop, every schedule delivers everything within a computed number of steps |
| WatchPump.WatchSub.Enqueue | pkg/store/badger_store.go:638-661 | an append followed by a coalescing signal; warns once each time the backlog reaches 1024 |
| WatchPump.WatchSub.Take | pkg/store/badger_store.go:668-684 | the top of the pump loop takes the oldest event or waits |
| WatchFanout.FanoutIsExact | pkg/store/badger_store.go:740-762 | a subscriber is handed an event if and only if its scope matches, and once, except that an empty namespace or type doubles it |
| WatchFanout.Hub.Dispatch | pkg/store/badger_store.go:764-770 | one copy for each time a subscriber is listed under the key |
| WatchFanout.Hub.Emit | pkg/store/badger_store.go:740-762 | in a wired hub every registered subscriber gets exactly the copies that are its due |
| WatchFanout.Hub.Watch | pkg/store/badger_store.go:701-712 | registers a new subscriber under its key, with every other registration as it was |
| WatchFanout.Hub.Cancel | pkg/store/badger_store.go:714-731 | removes exactly that subscriber |
| SeqCodec.SeqRoundTrip | pkg/events/recorder.go:337-355 | encoding and decoding a sequence number is exact if and only if it is not negative |
| SeqCodec.DecodingIsExact | pkg/events/recorder.go:337-355 | eight bytes whose first is below 128 decode to the number that encodes to them, anything else decodes to 0, and negative numbers are encoded as 0 |
| SeqCodec.SeqOrder | pkg/events/recorder.go:337-344 | byte order of keys is sequence order |
| EventRecorder.Recorder.constructor | pkg/events/recorder.go:86-138 | the restored counter continues after the last stored number, with an empty cache and a bound of 50 where none is given |
| EventRecorder.Recorder.PersistEvent | pkg/events/recorder.go:195-208 | both indexes or neither |
| EventRecorder.Recorder.EmitEvent | pkg/events/recorder.go:145-190 | refused without kind or name, folded into the newest ring entry, or appended under the next number |
| EventRecorder.Recorder.List | pkg/events/recorder.go:213-248 | newest first from the ring, or from the index when the ring is empty |
| EventRecorder.Recorder.ListAfter | pkg/events/recorder.go:253-277 | ascending from cursor + 1 in int64 arithmetic, up to the limit or 100 |
| EventLog.EmitKeepsConsistent | pkg/events/recorder.go:145-208 | an emit keeps both indexes equal and ordered, each ring a suffix of its index, and only extends the listed numbers |
| EventLog.RestartKeepsConsistent | pkg/events/recorder.go:111-138 | so does a restart, and the restored counter exceeds every stored number |
| EventLog.EmitKeepsNumbers | pkg/events/recorder.go:145-208 | whether or not its write succeeds, an emit keeps the index ascending and the counter ahead, and stores at most its own number |
| EventLog.PutExtendsIff | pkg/events/recorder.go:195-208 | a write leaves the listed numbers a prefix of the new ones if and only if it replaces an entry or goes to the end |
| EventPaging.CacheAgreesWithLog | pkg/events/recorder.go:145-248 | from a fresh start with every write persisted a listing by resource is exactly the newest-first scan of its index, capped |
| EventPaging.RingIsScanIff | pkg/events/recorder.go:213-227 | across restarts this holds if and only if the ring is empty, long enough for the page, or complete |
| EventPaging.RestartShortensListings | pkg/events/recorder.go:217-227 | an example where it is not |
| EventPaging.CountsAddUp | pkg/events/recorder.go:160-180 | with Count left unset the counts of a resource add up to the number of its emits |
| EventPaging.EmitIsListed | pkg/events/recorder.go:145-190 | what is listed first after an emit, whether or not its write worked: the event as emitted under the next number, or, if and only if it repeats UID, reason and message of the newest cached one, that one with its count raised; other listings stay |
| EventPaging.EmitIsStored | pkg/events/recorder.go:160-208 | the stored events of the resource grow by one if and only if the event does not repeat the newest cached one |
| EventPaging.InvalidIsRefused | pkg/events/recorder.go:145-148 | an event without a kind or a name, and only such an event, is refused and changes nothing |
| EventPaging.ListingIsNewestFirst | pkg/events/recorder.go:213-248 | a listing is newest first, as many as asked for but never more than the bound |
| EventPaging.PageIsFull | pkg/events/recorder.go:253-277 | a page holds as many events as asked for, or a hundred, if there are that many |
| EventPaging.PageIsExactIff | pkg/events/recorder.go:253-277 | a page holds the first events after the cursor, unless the cursor is the largest int64 and the log is not empty |
| EventPaging.EachNumberOnce | pkg/events/recorder.go:253-317 | under any interleaving with emits, failed writes, restarts and failed saves of its cursor a consumer receives stored numbers only; it misses a number if and only if an emit made up for that number's failed write below its position and it never went back; it receives all ascending, none twice, if and only if it never lists after a failed save; an empty page means nothing lies beyond |
| EventPaging.ReceivedIsPrefixIff | pkg/events/recorder.go:253-317 | while no page is listed again, what a consumer has received is a prefix of what is stored if and only if nothing was skipped |
| EventPaging.PersistedRunsSkipNothing | pkg/events/recorder.go:145-208 | with every write of an event persisted nothing is skipped, whatever becomes of the cursor |
| EventPaging.FoldIsDeliveredIff | pkg/events/recorder.go:160-169 | a fold leaves the listed numbers as they are and is delivered with its new count if and only if its number is above the cursor |
| EventPaging.FoldIsNotRedelivered | pkg/events/recorder.go:140-144 | a consumer past a folded event never sees the fold, contrary to the comment |
| EventPaging.LateFoldIsSkipped | pkg/events/recorder.go:160-169 | an event whose write failed and that a later fold persists is skipped by a consumer that has moved on |
| CycleDetection.DetectDependencyCycles | pkg/types/dependency_graph.go:18-63 | the recursive search over shared state terminates, reports nothing if and only if there is no cycle, and its first report is a closed path of edges |
| CycleDetection.Detector.Dfs | pkg/types/dependency_graph.go:29-55 | one recursive call does what the search function says, on a measure of unvisited nodes |
| CycleDetection.Detector.ScanNeighbours | pkg/types/dependency_graph.go:32-51 | the loop over the neighbours of a node |
| CycleDetection.Detector.VisitNeighbour | pkg/types/dependency_graph.go:33-50 | one turn of that loop |
| CycleDetection.Detector.Report | pkg/types/dependency_graph.go:34-43 | the reported path runs from the first occurrence on the stack |
| CycleDetection.DetectionIsExact | pkg/types/dependency_graph.go:15-63 | sound and complete for every graph and every map order |
| CycleDetection.ReportIsCycleIff | pkg/types/dependency_graph.go:33-61 | any report, whatever earlier searches left on the stack, is a cycle if and only if it starts within its own search or the stack from its start on leads along edges to the root |
| CycleDetection.SecondReportCanBeFalse | pkg/types/dependency_graph.go:33-45 | a second report that is not a cycle |
| LogQLParser.Parse | pkg/observe/logql.go:264-308 | the loop computes the parse function, every turn shortens the input, and an error comes back with the stages read so far |
| LogQLParser.Builder.Step | pkg/observe/logql.go:267-307 | one turn of the loop, in the order of its cases |
| LogQLParser.Builder.ParseStage | pkg/observe/logql.go:312-351 | a label filter if an operator follows, a parser stage otherwise |
| LogQLParser.ScanIdent | pkg/observe/logql.go:354-367 | the leading identifier |
| LogQLParser.ScanOp | pkg/observe/logql.go:370-380 | the leading operator, longest first |
| LogQLParser.ScanBareToken | pkg/observe/logql.go:383-391 | up to a blank, a tab or a bar |
| LogQLParser.ScanQuoted | pkg/observe/logql.go:395-415 | up to the closing quote, a backslash covering the next character |
| LogQLParser.Split | pkg/observe/logql.go:430-453 | the loop computes the split function |
| LogQLRoundTrip.PipelineRoundTrip | pkg/observe/logql.go:264-415 | in canonical order every pipeline whose labels are identifiers reads back exactly, a label named json included |
| LogQLRoundTrip.StagesRoundTrip | pkg/observe/logql.go:264-415 | stages in any order read back as what they stand for if and only if no != or !~ line filter directly follows a parser stage; otherwise each such pair is read as one label filter and everything else as it was |
| LogQLRoundTrip.CanonicalFormMeansTheSame | pkg/observe/logql.go:264-415 | whatever text parses, its canonical form parses to the same pipeline |
| LogQLRoundTrip.BareLabelIsRead | pkg/observe/logql.go:312-351 | a label filter with an unquoted value, spaced or not, takes the value up to the next blank, tab or bar under every operator but the two for regular expressions, which refuse it |
| LogQLRoundTrip.StagesBeforeErrorComeBack | pkg/observe/logql.go:264-308 | where the text breaks off the parse fails, and exactly the stages before come back |
| LogQLRoundTrip.EscapesAre | pkg/observe/logql.go:395-415 | the escapes of a quoted value stand for the seven control characters from bell to carriage return, a backslash and a quote |
| LogQLRoundTrip.IdentLettersAre | pkg/observe/logql.go:354-367 | identifiers are made of letters, the underscore and, but not in front, digits |
| LogQLRoundTrip.TrimIsExact | pkg/observe/logql.go:264-308 | trimming takes off white space at both ends, all of it and nothing else |
| LogQLRoundTrip.RawNewlineIsRefused | pkg/observe/logql.go:395-415 | a raw line break in a quoted value is refused wherever it stands |
| LogQLRoundTrip.UnknownStageIsRefused | pkg/observe/logql.go:321-332 | a stage that is neither logfmt nor json nor a label filter is refused |
| LogQLRoundTrip.UnexpectedIsRefused | pkg/observe/logql.go:303-305 | text that starts neither with a bar nor with a negation is refused |
| LogQLRoundTrip.NegatedFilterAfterParserIsMisread | pkg/observe/logql.go:312-330 | a parser stage and a != or !~ line filter right after it become one label filter on a label of the parser's name |
| LogQLRoundTrip.JoinOfSplit | pkg/observe/logql.go:430-453 | joining the parts gives back the text, whatever it is |
| LogQLRoundTrip.SplitOfJoin | pkg/observe/logql.go:430-453 | parts with balanced quotes and no bare separator come back one by one |
| Templates.PreprocessTemplates | pkg/types/castfile.go:813-835 | the scan numbers the references and keeps each under its placeholder |
| Templates.RefIsBracedText | pkg/types/castfile.go:813-835 | a reference is read exactly where double braces enclose non-empty text without a closing brace, and it is that text |
| TemplateScanning.NoReferenceIsLeft | pkg/types/castfile.go:813-835 | no reference can be read anywhere in the processed text |
| Templates.RestoreTemplateReferences | pkg/types/castfile.go:864-870 | replacement in iteration order |
| Templates.ReplaceFillsHole | pkg/types/castfile.go:864-870 | replacing one placeholder fills exactly its own holes: none starts inside another one or straddles the text around it |
| Templates.PlaceholderRoundTrip | pkg/types/castfile.go:813-870 | content without the text TEMPLATE_PLACEHOLDER comes back exactly in whatever order the placeholders are restored |
| TemplateRestoring.RoundTripIff | pkg/types/castfile.go:813-870 | any content comes back, in a given order of restoring, if and only if no pass meets a placeholder anywhere but at its own holes, straddled text included |
| Templates.MarkedContentIsLost | pkg/types/castfile.go:864-870 | content that looks like a placeholder is overwritten |
| Stall.UpdateStatus.CarryPeaksFrom | pkg/types/update_strategy.go:546-563 | the marks become the larger of the inherited marks and the counts |
| Stall.PeaksAreRunningMaxima | pkg/types/update_strategy.go:546-563 | over any ticks of one roll the marks are the running maxima |
| Stall.ProgressIsANewRecord | pkg/types/update_strategy.go:527-544 | a tick is progress if and only if some count beats its value at every earlier tick |
| Stall.StallBound | pkg/types/update_strategy.go:527-563 | with counts at most n a roll makes progress at most 3n times after its first tick |
| Stall.ClockStandsStill | pkg/orchestrator/reconciler/status.go:290-322 | without a new record and without a dependency gate the progress clock stands still |
| Stall.ClockShowsLastProgress | pkg/orchestrator/reconciler/status.go:290-322 | the clock always shows the time of the last tick that was the first of the roll, gated, or a new record |
| Stall.OtherRollsAreForgotten | pkg/orchestrator/reconciler/status.go:290-300 | a roll owes nothing to the block of another generation, and a finished one leaves no block |
| Refs.UriRoundTrip | pkg/types/ref.go:35-107 | the URI form reads back if and only if an ID comes without a name, the name is not id with a key, and neither name, ID nor key holds a slash or a percent sign, because the path is unescaped before it is split and then piece by piece again |
| Refs.UnescapeFailsIff | pkg/types/ref.go:78-107 | unescaping fails exactly where two hexadecimal digits do not follow a percent sign |
| Refs.KeptLettersAre | pkg/types/ref.go:35-47 | which characters a path segment keeps unescaped |
| Refs.MissingIdIsInvalid | pkg/types/ref.go:90-94 | a reference by ID without the ID is invalid |
| Refs.FqdnRoundTrip | pkg/types/ref.go:108-137 | type:name.namespace.rune reads back, dots in the name included, if and only if no part is empty, the type has no colon, the namespace has no dot and no part has a slash |
| Refs.ShortRoundTrip | pkg/types/ref.go:108-137 | type:name with any key or none reads back if and only if type and name are non-empty, the type has no colon and the name does not end in .rune |
| Refs.FqdnWithKey | pkg/types/ref.go:108-137 | so does the fully qualified form with a key |
| Refs.KeyIsSplitOff | pkg/types/ref.go:108-116 | whatever follows the first slash of a short form is its key, slashes included |

## Left out

- Rollback.AtomicRollback: during a cast nobody else deletes services or writes specs; `Teardowns.TeardownIsLiftedIff` covers deletes by an operator, one service at a time.
- Histories.OwnershipOverHistories: covers casts that were rejected, deployed, or rolled back with everything read consistently and the outcome recorded or of no consequence to ownership, and uninstalls that were rejected or completed; `Limits.FailedCastRecord` says what casts leave that failed and were not rolled back, `Limits.RecordAfterRollback` and `Limits.UnsavedRollbackRecordIff` what rollbacks leave that were incomplete or not recorded, and `Limits.AdoptionBreaksTheOtherRecord` what adoption does to other releases.
- EventPaging.EachNumberOnce: covers fewer than 2^63 events.
- EventLog.EmitKeepsConsistent: the index by resource is keyed by namespace, kind and name; the code scans a text prefix, so a name that holds a slash can mix the listings of two resources.
- Refs.UriRoundTrip: type and namespace are of unreserved characters; queries, fragments, users and ports of URIs are not modelled.
- LogQLParser.ScanQuoted: numeric escapes (octal, \x, \u, \U) are refused by the model and accepted by the code.
- CycleDetection.DetectDependencyCycles: reports are paths; their rendering into error texts is not modelled.
- Appliers.Applier.Apply: the payload is stamped on a copy, where the code stamps the rendered payload itself.
- A failed read of the release record, which the code takes for "no such release".
- The JSON and YAML codecs, hashing, UUIDs, wall-clock time and the expiry of events.
- Polling and timeouts of the release check, which is an input here.
- Authorization rules; only their place before the pending record is modelled.
- The service, instance, scaling, volume and GPU controllers, beyond requesting and completing a teardown.
- Two writers changing secrets, configmaps or volumes during one cast, and two casts of one release at once.
- Version history of stored resources, and the plain create, update and delete of the store.
- Stream selectors and metric queries of LogQL.
- The bare and namespace/name forms of references, validators, command line, web interface and runners: they would only add easy members.
