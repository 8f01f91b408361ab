# Planipus, verified

Planipus copies events from source calendars to destination calendars under a policy, and can decline
work invitations that clash with private busy time. This project models its hard parts in Dafny and
proves what they promise. `dafny verify dfyconfig.toml` checks all of it.

- **The Mac edition's sync protocol** (`SyncProtocol.dfy`): a state machine whose steps are the awaits of
  the coordinator. Everything the coordinator does not decide is part of a step: the policy decision,
  provider faults, lost answers, clock ticks, crashes between any two awaits, and other people's edits to
  the destination. Proved over whole runs: ownership safety (`OwnershipSafety.dfy`), the freeze of held
  copies and its exact limit (`HoldFreeze.dfy`, `HoldLanding.dfy`, `HeldBehind.dfy`), when a removed copy stays
  removed (`RemovedCopies.dfy`, `BroughtBack.dfy`) and a resolved notice resolved (`NoticeRace.dfy`), what a
  reconcile pass does in every case (`RepairPass.dfy`, `ReconcilePass.dfy`) and an answer to a notice
  (`NoticeResolution.dfy`), how each attempt of the drain ends (`DrainOutcomes.dfy`), and replay after crashes
  and failed calls (`CrashReplay.dfy`, `DrainCompletes.dfy`). The repository's outbox is a class proved against
  the same functions (`OutboxStore.dfy`, `DueEffects.dfy`).
- **Observations and feeds** (`Observations.dfy`, `FeedTraversal.dfy`): the staged commit of both stores,
  and the page traversal that ends in a commit or in no change.
- **Run slot and pollers** (`Scheduling.dfy`): classes with the coordinator's fields.
- **The server's conflict responder** (`ConflictResponse.dfy`, `DeclineBudget.dfy`, `BudgetWindows.dfy`,
  `ConflictStore.dfy`, `ResponderRows.dfy`, `ClashingInvitations.dfy`): rules, actions and decline facts under a
  rolling budget of 20 in 24 hours; transactions interleave in any order under one monotone clock.
  `WorkerPool.dfy` is its free/busy query, `LockOrder.dfy` its advisory locks.
- **The policy evaluator** (`PolicyEvaluator.dfy`, `EvaluatorProperties.dfy`, `CopyContents.dfy`): when an event is
  copied, what the copy shows and which reasons are given, what it may disclose (two-run
  properties), and that one step settles. `NoCopyOfCopy.dfy` puts it into runs over arbitrary policy graphs.
- **Hours and local times** (`Hours.dfy`, `LocalTime.dfy`, and `NativeHours.dfy`, which joins them).
- **Canonical encodings** (`CanonicalJson.dfy`, `CanonicalInjective.dfy`, `CanonicalRead.dfy`, `EventId.dfy`):
  canonical JSON, read back by a reader after RFC 8259, and base32hex of section 7 of RFC 4648, lower case and
  unpadded.
- **Flood fill** (`FloodFill.dfy`): the mascot script's background remover on the pixel array.

Assumptions. The provider is the Google adapter's: If-Match is honoured, every change gives a fresh
revision, and a create on an occupied id answers conflict (the fake provider of the test support overwrites
instead, macos/Sources/PlanipusTestSupport/FakeCalendarProvider.swift:74-95). SHA-256 is injective where a
lemma says so, Unicode normalisation (and with it Swift's comparison of the stores' dictionary keys) and the order
of keys are parameters, and a time zone is a function from instants to offsets. Clocks, ids and answers of foreign
code enter as parameters or steps.

Findings, each proved:

- A held copy is not safe from an effect that is still unfinished, because the drain does not look at holds and
  finishing overwrites them: `HoldLanding.FreezeExactly` gives the exact condition, and
  `HeldBehind.HeldWithUnfinished` a run from an empty repository that gets there.
- "Declines in any 24-hour window plus pending actions stay within 20" fails for windows that have closed:
  `BudgetWindows.WindowsExactly`, with the run that shows it.
- In a gap the native resolver is right exactly when the change lies within its twelve-hour probes; a zone
  that jumps the date line makes it give up: `LocalTime.GapShiftExactly`, `LocalTime.DateLineChangeFails`.
- The two stores agree on every batch exactly when no two identities share an in-memory key and no two share the
  joined text under which the row store files tombstones: `Observations.StoresAgreeExactly`. An absent and an empty
  occurrence of one event share the first, ids containing U+001F can share the second, and canonically equivalent
  ids share both, because Swift dictionaries compare keys up to canonical equivalence while rows are found by exact
  text (`Observations.MemoryKeysCollide`, `Observations.JoinedKeysCollide`).
- Event ids treat an absent occurrence and an occurrence called "master" alike, and coordinates that contain U+001F
  can run together: `EventId.IdsIdentify`, `EventId.IdsAreJoins`.
- Sorted lock acquisition tolerates hash collisions of neighbouring keys and no others: it is free of deadlock
  exactly when no key with another hash lies between two keys of one hash: `LockOrder.DeadlockFreeExactly`.
- The bounded scan of dates is enough exactly in tight zones: `Hours.ScanExactly`. Under the native resolver a
  change within twelve hours of UTC breaks it exactly when it sets the wall back over a midnight or, skipped times
  being shifted, carries one over it: `NativeHours.NativeScanExactly`.
- An acknowledgement that read a notice before its resolution reopens it afterwards; a resolved notice is safe
  exactly when no such acknowledgement is under way: `NoticeRace.ResolvedExactly`, with the run
  `NoticeRace.ResolutionUndone` (macos/Sources/PlanipusSync/SyncCoordinator.swift:549-556).
- A copy deleted because its source is gone comes back if a create or update of it is still unfinished, and only
  then: `RemovedCopies.RemovedExactly`, with the run `BroughtBack.RemovedAndBack`.
- A restore that fails, because the policy is gone, the destination does not answer or somebody else's event stands
  there, has released the copy by then: its notice stays open and can no longer be answered:
  `NoticeResolution.RestoreFails`, `NoticeResolution.FailedIsStale`.

## Model

| member | source | states |
|---|---|---|
| `OwnershipSafety.OwnershipInEveryRun` | macos/Sources/PlanipusSync/SyncCoordinator.swift:734-889 | In every run from an empty state, with crashes, provider faults and outside edits at any moment, each update or delete the provider carries out hits an event with this policy's and projection's markers, and each create an empty slot. |
| `OwnershipSafety.RunKeepsSafe` | macos/Sources/PlanipusSync/SyncCoordinator.swift:734-889 | Every run keeps the invariant: each update or delete in the outbox, in the drain's list or about to be queued is guarded by a revision that was once read from the owned event in its slot. |
| `OwnershipSafety.StepKeepsSafe` | macos/Sources/PlanipusSync/SyncCoordinator.swift:368-953 | Each single await of reconcile, notice resolution and drain keeps that invariant, and so does each step of the environment. |
| `OwnershipSafety.CarryOutRespects` | macos/Sources/PlanipusGoogle/GoogleCalendarProvider.swift:118-180 | A guarded mutation that the provider accepts finds the owned event, because a revision is never handed out twice. |
| `OwnershipSafety.ReconcileReadsSafe` | macos/Sources/PlanipusSync/SyncCoordinator.swift:399-509 | What a reconcile pass queues after reading the destination is guarded by the revision it read from the owned copy. |
| `OwnershipSafety.RestoreReadSafe` | macos/Sources/PlanipusSync/SyncCoordinator.swift:612-666 | A restore queues nothing without a guard except a create; what it queues is the subject of NoticeResolution. |
| `OwnershipSafety.SendKeepsSafe` | macos/Sources/PlanipusSync/SyncCoordinator.swift:756-790 | Sending keeps the history of accepted mutations respectful, whether or not the answer arrives. |
| `OwnershipSafety.ReadPhasesSafe` | macos/Sources/PlanipusSync/SyncCoordinator.swift:849-889 | Conflict recovery and the read-backs only rewrite an effect to a create or to a revision just read from the owned event. |
| `DueEffects.DueListExists` | macos/Sources/PlanipusStore/InMemoryPlanipusRepository.swift:160-172 | Whatever the outbox holds, the due query has an answer: due effects in order of due time and creation, at most a hundred, the earliest ones. |
| `DueEffects.HeadComesFirst` | macos/Sources/PlanipusStore/InMemoryPlanipusRepository.swift:160-172 | The answer is non-empty if anything is due, and its head comes before every due effect. |
| `DueEffects.DueListExactly` | macos/Sources/PlanipusStore/InMemoryPlanipusRepository.swift:160-172 | A list answers the query if and only if it holds at most a hundred different waiting effects that are due, in order of due time and then of creation, and leaves one out only for a hundred sooner ones. |
| `OutboxStore.Store.Due` | macos/Sources/PlanipusStore/InMemoryPlanipusRepository.swift:160-172 | The filter, sort and prefix return exactly such a list. |
| `OutboxStore.Store.Enqueue` | macos/Sources/PlanipusStore/InMemoryPlanipusRepository.swift:147-158 | Re-issuing an intent replaces a completed effect and is refused while one is open or quarantined; nothing else changes and every effect stays the one its idempotency key points at. |
| `OutboxStore.Store.OneEffectPerIntent` | macos/Sources/PlanipusStore/InMemoryPlanipusRepository.swift:147-158 | In every valid outbox two effects with one idempotency key are the same effect. |
| `OutboxStore.Store.constructor` | macos/Sources/PlanipusStore/InMemoryPlanipusRepository.swift:11-20 | A new repository is empty and valid. |
| `OutboxStore.Store.Mark` | macos/Sources/PlanipusStore/InMemoryPlanipusRepository.swift:181-197 | Marking changes the state of one known effect and nothing else, and reports an unknown id. |
| `OutboxStore.Store.MarkAsApplying` | macos/Sources/PlanipusStore/InMemoryPlanipusRepository.swift:174-179 | Claiming an effect also counts the attempt. |
| `OutboxStore.Store.Retry` | macos/Sources/PlanipusStore/InMemoryPlanipusRepository.swift:203-209 | Rescheduling returns one effect to pending at the given time. |
| `OutboxStore.Store.Revise` | macos/Sources/PlanipusStore/InMemoryPlanipusRepository.swift:211-229 | Revising replaces one effect's mutation and returns it to pending; its idempotency key stays. |
| `OutboxStore.InsertArranges` | macos/Sources/PlanipusStore/InMemoryPlanipusRepository.swift:160-172 | One more effect inserted into an arranged list leaves it arranged, whichever effect it is. |
| `HoldLanding.FreezeExactly` | macos/Sources/PlanipusSync/SyncCoordinator.swift:379-381 | For a held or detached copy, no run without a resolution changes its projection if and only if the outbox holds no unfinished effect for it; under the same condition, and only then, nothing is sent for it either. |
| `HoldFreeze.RunLeavesAlone` | macos/Sources/PlanipusSync/SyncCoordinator.swift:368-599 | Over any run without resolution the frozen projection is unchanged, nothing is sent for it and nothing is queued for it. |
| `HoldLanding.UnfinishedThaws` | macos/Sources/PlanipusSync/SyncCoordinator.swift:734-909 | From any idle state with an unfinished effect for a copy some run, without any resolution, lets the effect land and ends with the projection replaced by an unheld one or dropped: the drain does not look at holds, and finishing overwrites them. |
| `HoldLanding.CreationLands` | macos/Sources/PlanipusSync/SyncCoordinator.swift:756-776 | A create at the head of the outbox whose slot was emptied lands, is read back and is recorded as a fresh, unheld projection with its current revision. |
| `HoldLanding.DeletionLands` | macos/Sources/PlanipusSync/SyncCoordinator.swift:891-909 | A delete at the head of the outbox drops the projection, held or not. |
| `HoldLanding.UpdateRewritten` | macos/Sources/PlanipusSync/SyncCoordinator.swift:808-822 | An update that finds its slot empty is rewritten to a create and stays unfinished. |
| `HeldBehind.HeldWithUnfinished` | macos/Sources/PlanipusSync/SyncCoordinator.swift:410-524 | The case is reachable: from an empty repository, for every event copied under hold-for-review, some run ends with the copy held and an effect of it unfinished, and some continuation undoes the hold without a resolution. |
| `HoldFreeze.DetachedForGood` | macos/Sources/PlanipusSync/SyncCoordinator.swift:564-599 | A detached copy stays detached and untouched in every run, even if its notices are resolved again. |
| `HoldFreeze.RunKeepsConsistent` | macos/Sources/PlanipusSync/SyncCoordinator.swift:368-909 | Ids, keys and sendability of effects stay in order over every run. |
| `HoldFreeze.DrainMindsItsHead` | macos/Sources/PlanipusSync/SyncCoordinator.swift:734-909 | A drain step changes and sends nothing but the effect it is working on. |
| `RepairPass.ReviewHolds` | macos/Sources/PlanipusSync/SyncCoordinator.swift:410-452 | A reconcile pass over a copy that a person edited or removed, under hold-for-review, leaves the change in place, holds the copy, queues nothing and records exactly one new notice, unread, that carries the decision. |
| `RepairPass.HeldUntilResolved` | macos/Sources/PlanipusSync/SyncCoordinator.swift:410-599 | After that pass the copy stays held with nothing sent or queued for it in every run until a notice of it is resolved, provided nothing unfinished was in the outbox. |
| `RepairPass.RepairQueued` | macos/Sources/PlanipusSync/SyncCoordinator.swift:399-473 | Under the restoring responses, or when the source changed, the pass queues one create or guarded update of the desired copy, with a notice exactly when the policy asks for one. |
| `RepairPass.Repaired` | macos/Sources/PlanipusSync/SyncCoordinator.swift:399-909 | After such a pass, whenever nothing is left to drain, however often the drain was cut and whichever of its calls failed, the slot shows the desired copy under this policy's markers and the projection records its fingerprint and current revision. |
| `ReconcilePass.MovesOver` | macos/Sources/PlanipusSync/SyncCoordinator.swift:383-393 | A copy on a calendar the policy no longer writes to is taken away whatever is decided about its event: after one pass and any drain, however cut, nothing is left of it on the old slot or in the records, and the next pass queues one create on the new calendar. |
| `ReconcilePass.RemovalQueued` | macos/Sources/PlanipusSync/SyncCoordinator.swift:478-511 | A pass that has to take a copy away, because the policy moved or the event is not to be copied any more, queues one delete guarded by the revision the destination shows. |
| `ReconcilePass.RemovalForgets` | macos/Sources/PlanipusSync/SyncCoordinator.swift:494-497 | If the copy is gone already the pass only forgets its projection. |
| `ReconcilePass.RemovedInTheEnd` | macos/Sources/PlanipusSync/SyncCoordinator.swift:478-509 | Once nothing is left to drain, however often the drain was cut, slot and projection of such a copy are empty. |
| `ReconcilePass.FirstCopyQueued` | macos/Sources/PlanipusSync/SyncCoordinator.swift:454-477 | A pass for an event without a recorded copy queues one create in the calendar the policy writes to. |
| `ReconcilePass.FirstCopyShown` | macos/Sources/PlanipusSync/SyncCoordinator.swift:454-477 | In the end that copy is there under the markers of this policy and is recorded with its revision. |
| `ReconcilePass.QuietStays` | macos/Sources/PlanipusSync/SyncCoordinator.swift:368-487 | A pass changes nothing for a frozen copy, when nothing is to be copied or removed, when the destination fails to answer or shows an event of somebody else, and when the copy is unedited and up to date. |
| `ReconcilePass.EveryPass` | macos/Sources/PlanipusSync/SyncCoordinator.swift:368-487 | Every other pass makes a first copy, removes one, holds one for review, or repairs one: no case is left over. |
| `ReconcilePass.IntentsExactly` | macos/Sources/PlanipusSync/SyncCoordinator.swift:689-732 | Two requests are one intent in the outbox if and only if operation, slot, policy revision, source revision and desired copy agree, an absent source revision counting as the word unversioned. |
| `NoticeResolution.Restored` | macos/Sources/PlanipusSync/SyncCoordinator.swift:564-648 | Restoring a held copy whose source still projects: whenever nothing is left to drain, however often the drain was cut, the slot shows the desired copy under the markers of this policy and the projection records it with its current revision and without a hold. |
| `NoticeResolution.Withdrawn` | macos/Sources/PlanipusSync/SyncCoordinator.swift:564-665 | Restoring a held copy whose source no longer projects: in the end slot and projection are empty. |
| `NoticeResolution.RestoreQueued` | macos/Sources/PlanipusSync/SyncCoordinator.swift:583-648 | The restore itself releases the hold, resolves the notice and queues one create, or one update guarded by the revision just read, of the desired copy. |
| `NoticeResolution.RestoreRemoves` | macos/Sources/PlanipusSync/SyncCoordinator.swift:649-665 | If the source no longer projects and the copy is there, the restore queues its guarded delete instead. |
| `NoticeResolution.RestoreForgets` | macos/Sources/PlanipusSync/SyncCoordinator.swift:649-653 | If the copy is gone as well, the restore drops the projection at once. |
| `NoticeResolution.RestoreFails` | macos/Sources/PlanipusSync/SyncCoordinator.swift:612-627 | Without the policy, without an answer, or before an event of somebody else nothing is queued and the notice stays open, but the hold has been released. |
| `NoticeResolution.FailedIsStale` | macos/Sources/PlanipusSync/SyncCoordinator.swift:564-627 | After such a failure the open notice can no longer be answered: its copy is not held any more. |
| `NoticeResolution.KeptAsIs` | macos/Sources/PlanipusSync/SyncCoordinator.swift:577-582 | Keeping the change touches neither calendars nor outbox: the copy is detached and unheld and the notice resolved. |
| `NoticeResolution.NothingToAnswer` | macos/Sources/PlanipusSync/SyncCoordinator.swift:564-576 | A notice that awaits no decision on a held, undetached copy cannot be answered: nothing changes. |
| `NoticeRace.ResolvedExactly` | macos/Sources/PlanipusSync/SyncCoordinator.swift:549-611 | A resolved notice stays resolved in every run if and only if no acknowledgement that read it before is still to be written back. |
| `NoticeRace.ResolutionUndone` | macos/Sources/PlanipusSync/SyncCoordinator.swift:549-599 | The case is reachable: from an empty repository, for every event copied under hold-for-review, some run resolves a notice and the next write of an acknowledgement reopens it. |
| `NoticeRace.AcknowledgedExactly` | macos/Sources/PlanipusSync/SyncCoordinator.swift:549-556 | With nothing in between, acknowledging marks an unread notice and leaves every other one alone. |
| `RemovedCopies.RemovedExactly` | macos/Sources/PlanipusSync/SyncCoordinator.swift:734-909 | A copy that is gone from destination and records stays gone in every run that decides nothing new about it if and only if no create or update of it, or into its slot, is unfinished. |
| `RemovedCopies.UnfinishedBringsBack` | macos/Sources/PlanipusSync/SyncCoordinator.swift:734-909 | From any idle state with an unfinished create or update some run of drains alone brings its copy back to destination and records; an update finds its slot empty and is rewritten to a create first. |
| `BroughtBack.RemovedAndBack` | macos/Sources/PlanipusSync/SyncCoordinator.swift:478-509 | The case is reachable: from an empty repository, for every copied event, some run ends with the copy deleted because its source is gone and a create of it unfinished, and drains alone bring it back. |
| `CrashReplay.DrainsAgree` | macos/Sources/PlanipusSync/SyncCoordinator.swift:734-909 | Two drains from the same ready state, cut and resumed anywhere, whatever calls fail and whatever answers to writes are lost, end with the same destination contents, the same recorded copies and effect states, and every recorded revision current; only an error that wrongly reports the slot as missing or foreign is excluded. |
| `CrashReplay.ReachedReplays` | macos/Sources/PlanipusSync/SyncCoordinator.swift:734-909 | In every state such a drain can reach, after a crash, a failed read, a postponed effect or a lost answer, each effect, its slot and its projection are on the way that the slot's initial content prescribes. |
| `CrashReplay.Through` | macos/Sources/PlanipusSync/SyncCoordinator.swift:891-909 | An effect that is through has left slot and projection as prescribed: written, adopted, erased, or refused and quarantined. |
| `CrashReplay.SendTracks` | macos/Sources/PlanipusSync/SyncCoordinator.swift:756-790 | Sending an effect again after a crash or a lost answer neither loses nor doubles its change. |
| `CrashReplay.RecoverTracks` | macos/Sources/PlanipusSync/SyncCoordinator.swift:849-889 | Conflict recovery continues the same intent. |
| `CrashReplay.AdoptTracks` | macos/Sources/PlanipusSync/SyncCoordinator.swift:740-755 | An interrupted create adopts its own event and quarantines a foreign one. |
| `CrashReplay.VerifyTracks` | macos/Sources/PlanipusSync/SyncCoordinator.swift:756-776 | The read-back after a write finds the written copy and records its revision. |
| `CrashReplay.FinishTracks` | macos/Sources/PlanipusSync/SyncCoordinator.swift:891-909 | Finishing records what the slot shows. |
| `CrashReplay.EndsAgree` | macos/Sources/PlanipusSync/SyncCoordinator.swift:734-909 | Two finished replays of one state agree slot by slot and key by key. |
| `DrainOutcomes.WriteFails` | macos/Sources/PlanipusSync/SyncCoordinator.swift:756-838 | A write that fails counts the attempt and leaves the effect unclear, given up, or pending again: after five minutes if access is denied, at once as a create if an update found nothing, and otherwise after five seconds doubled with every attempt up to five minutes. Only somebody else being the owner lets the drain go on. |
| `DrainOutcomes.ReadFails` | macos/Sources/PlanipusSync/SyncCoordinator.swift:740-838 | A read that fails before or after the write ends the attempt in the same ways. |
| `DrainOutcomes.BackoffIsDelay` | macos/Sources/PlanipusSync/SyncCoordinator.swift:829-829 | The delay after n attempts is the lesser of 5 * 2^(n+1) and 300 seconds. |
| `DrainOutcomes.LookedAtFirst` | macos/Sources/PlanipusSync/SyncCoordinator.swift:740-746 | An effect is looked at before it is sent if and only if it is a create whose earlier attempt did not report back. |
| `DrainOutcomes.NothingToAdopt` | macos/Sources/PlanipusSync/SyncCoordinator.swift:740-758 | An interrupted create that left nothing behind is sent anew. |
| `DrainOutcomes.FoundOwn` | macos/Sources/PlanipusSync/SyncCoordinator.swift:746-776 | When the read finds the own copy it is recorded with its revision, the effect is done and the drain goes on. |
| `DrainOutcomes.FoundForeign` | macos/Sources/PlanipusSync/SyncCoordinator.swift:746-800 | When it finds an event of somebody else the effect is quarantined and the drain goes on. |
| `DrainOutcomes.FoundNothing` | macos/Sources/PlanipusSync/SyncCoordinator.swift:760-782 | When the read-back finds nothing the result is unclear and the drain ends. |
| `DrainOutcomes.Deleted` | macos/Sources/PlanipusSync/SyncCoordinator.swift:776-809 | A delete that is carried out, or finds nothing to delete, drops the projection, is done, and lets the drain go on. |
| `DrainOutcomes.ConflictIsRecovered` | macos/Sources/PlanipusSync/SyncCoordinator.swift:791-806 | A conflict, reported or answered, leads to the recovery read. |
| `DrainOutcomes.ConflictSettled` | macos/Sources/PlanipusSync/SyncCoordinator.swift:849-880 | A delete whose copy is gone and a create whose copy is there already are done, and the drain ends. |
| `DrainOutcomes.ConflictReissued` | macos/Sources/PlanipusSync/SyncCoordinator.swift:849-889 | A write whose copy is gone becomes a create, one that met another revision is guarded by that one; it is due at once and the drain ends. |
| `DrainOutcomes.ConflictUnread` | macos/Sources/PlanipusSync/SyncCoordinator.swift:791-806 | A recovery that cannot read ends the drain and leaves the effect as it is, unless ownership is denied. |
| `DrainCompletes.Completes` | macos/Sources/PlanipusSync/SyncCoordinator.swift:734-909 | After every cut, whatever failed before it, and a restart some drain, answered throughout and without any further crash, runs until nothing becomes due; no drain at all has more passes than twice the number of unfinished effects. |
| `DrainCompletes.EveryPassHelps` | macos/Sources/PlanipusSync/SyncCoordinator.swift:734-847 | Whatever list the due query answers, a pass with every call answered works it off or ends before, comes to idle within nine awaits an effect, and leaves strictly less to do. |
| `DrainCompletes.EveryDrainIsFinite` | macos/Sources/PlanipusSync/SyncCoordinator.swift:734-909 | Every sequence of such passes is bounded by the effects to complete and to rewrite. |
| `DrainCompletes.ExhaustedIsDone` | macos/Sources/PlanipusSync/SyncCoordinator.swift:734-735 | When waiting longer brings nothing due any more, every effect is completed or quarantined. |
| `DrainCompletes.CutDrainRecovers` | macos/Sources/PlanipusSync/SyncCoordinator.swift:734-909 | Every full drain after a cut anywhere, whatever failed before it, and a restart ends with the same destination contents, records and effect states, every recorded revision current, as every full drain that was never cut. |
| `DrainCompletes.FinishHead` | macos/Sources/PlanipusSync/SyncCoordinator.swift:734-847 | With every call answered the effect at the head is completed, or rewritten so that its next attempt completes it, and the pass goes on with the next one or ends. |
| `DrainCompletes.WorkDrops` | macos/Sources/PlanipusSync/SyncCoordinator.swift:734-889 | Completing or rewriting one effect lowers the work left, the others being where they were. |
| `DeclineBudget.BudgetInEveryRun` | server/src/conflict-response/coordinator.ts:112-247 | In every run no 24-hour window of one provider calendar holds more than 20 recorded declines, the last 24 hours plus pending actions never exceed 20, pending actions exist only under active rules, and at most one live rule answers for a calendar. |
| `BudgetWindows.WindowsExactly` | server/src/conflict-response/coordinator.ts:123-146 | Recorded declines of the window that started a given time ago plus pending actions stay within 20 in every run if and only if that window has not closed yet. |
| `BudgetWindows.ReservedLater` | server/src/conflict-response/coordinator.ts:123-222 | The failing run: activate, reserve twenty clashes, decline them all, wait more than a day, and a further clash is reserved while the old window still holds twenty. |
| `BudgetWindows.OpenWindows` | server/src/conflict-response/inputs.ts:128-164 | In every run a window that has not closed, together with the pending actions, stays within the budget. |
| `DeclineBudget.ConsiderAllOk` | server/src/conflict-response/coordinator.ts:147-222 | The loop's reservation counts every action it leaves pending and stays within the budget, whatever rows existed before. |
| `DeclineBudget.ReconcileKeepsInv` | server/src/conflict-response/coordinator.ts:112-247 | Reconciling with a clock reading taken before the transaction keeps budget and bookkeeping. |
| `DeclineBudget.ApplyKeepsInv` | server/src/conflict-response/coordinator.ts:304-416 | Applying turns a reservation into a fact or gives it back, never more. |
| `DeclineBudget.ApplyRecords` | server/src/conflict-response/coordinator.ts:380-416 | A decline is recorded exactly by turning one pending action into a fact stamped with the current time. |
| `DeclineBudget.FailKeepsInv` | server/src/conflict-response/coordinator.ts:418-457 | Recording a rule failure keeps the invariant. |
| `DeclineBudget.PauseKeepsInv` | server/src/conflict-response/service.ts:388-402 | Pausing and resuming keep the invariant. |
| `DeclineBudget.RemoveKeepsInv` | server/src/conflict-response/service.ts:504-537 | Removing a rule keeps the invariant. |
| `DeclineBudget.ActivateKeepsInv` | server/src/conflict-response/service.ts:164-176 | Activation keeps one live rule per calendar and the budget. |
| `DeclineBudget.RunKeepsInv` | server/src/conflict-response/coordinator.ts:112-457 | Any interleaving of these transactions keeps the invariant. |
| `DeclineBudget.DeletedForGood` | server/src/conflict-response/service.ts:504-537 | A deleted rule never comes back, rules keep their calendar, and recorded facts are never lost. |
| `DeclineBudget.LoopMatchesClosedForm` | server/src/conflict-response/engine.ts:106-119 | For a rule without earlier actions the loop's pending, held and budget-held counts are the closed form. |
| `DeclineBudget.PreviewForetells` | server/src/conflict-response/engine.ts:97-136 | The preview announces exactly the split of the first reconcile. |
| `ClashingInvitations.ConflictsExactly` | server/src/conflict-response/engine.ts:62-106 | An invitation is listed as a conflict if and only if some instant lies both in it and in a busy interval; conflicts are listed in order and once per occurrence, each with exactly the busy intervals it shares an instant with, in order and once per occurrence. |
| `ClashingInvitations.PreviewExactly` | server/src/conflict-response/engine.ts:97-126 | The preview counts exactly the clashing invitations; those without a revision are held, and of the others those beyond what is left of twenty declines. |
| `ClashingInvitations.OverlapIsMeeting` | server/src/conflict-response/engine.ts:62-83 | Two intervals overlap if and only if they share an instant. |
| `ResponderRows.ReconciledRows` | server/src/conflict-response/coordinator.ts:147-212 | After a reconcile the row of each conflicting invitation is untouched if the same conflict was answered before, pending if the invitation has a revision and the budget, counted along the list, reaches it, and otherwise held with the reason. |
| `ResponderRows.ReconciledOthers` | server/src/conflict-response/coordinator.ts:213-222 | Rows of the rule whose conflict is gone are superseded if they were open; all other rows stay. |
| `ResponderRows.ReconciledCode` | server/src/conflict-response/coordinator.ts:223-233 | The rule complains of the budget, else of a missing revision, else of a lost comment, else of nothing; facts, clock and other rules stay. |
| `ResponderRows.AppliedExactly` | server/src/conflict-response/coordinator.ts:304-416 | Applying acts only on a pending row of an active rule at the same revision and for the same overlap; then it declines with a fact, holds or supersedes that row alone. |
| `ResponderRows.PausedAndResumed` | server/src/conflict-response/service.ts:388-402 | Pausing holds the pending rows; resuming makes the rule active again and leaves the rows held. |
| `ResponderRows.RemovedExactly` | server/src/conflict-response/service.ts:504-537 | A deleted rule has given up all its open rows; applied rows and other rules are untouched. |
| `ResponderRows.FailedExactly` | server/src/conflict-response/coordinator.ts:418-457 | A failed evaluation marks the active rule and holds its pending rows with the same code. |
| `ResponderRows.ActivatedExactly` | server/src/conflict-response/service.ts:164-176 | A rule is created, active and at revision one, if and only if no live rule answers for the calendar. |
| `ResponderRows.RowsInEveryRun` | server/src/conflict-response/coordinator.ts:112-457 | In every run a pending row has a revision to guard it and no complaint, a held or superseded row names its reason, an applied row has its decline on record, and a deleted rule has no open row. |
| `ResponderRows.NeverMoreThanTwenty` | server/src/conflict-response/inputs.ts:128-164 | In every run the recorded declines of a calendar in any 86,400,000 milliseconds are at most twenty, and those of the last day plus its pending rows too, counted as sets of records. |
| `ResponderRows.DeclinesAreCounted` | server/src/conflict-response/inputs.ts:128-164 | The counting query counts exactly the records of that calendar from the given time on. |
| `ConflictStore.Tables.ReconcileRule` | server/src/conflict-response/coordinator.ts:112-247 | The reconcile transaction computes the specified store and counters and keeps the invariant, its clock reading being no later than now. |
| `ConflictStore.Tables.ConsiderConflicts` | server/src/conflict-response/coordinator.ts:145-222 | The in-place loop reserves budget and rewrites rows exactly as the specified tally. |
| `ConflictStore.Tables.ApplyAction` | server/src/conflict-response/coordinator.ts:304-416 | The apply transaction changes the tables as specified and keeps the invariant. |
| `ConflictStore.Tables.RecordRuleFailure` | server/src/conflict-response/coordinator.ts:418-457 | A failure moves the rule's pending actions to held and keeps the invariant. |
| `ConflictStore.Tables.PauseRule` | server/src/conflict-response/service.ts:388-402 | Pausing holds the pending actions of the rule; a deleted rule is left alone. |
| `ConflictStore.Tables.RemoveRule` | server/src/conflict-response/service.ts:504-537 | Removal deletes the rule and supersedes its open actions. |
| `ConflictStore.Tables.ActivateRule` | server/src/conflict-response/service.ts:164-176 | Activation is refused exactly while a live rule answers for the calendar. |
| `CanonicalInjective.TextDecides` | macos/Sources/PlanipusCore/CanonicalCalendarSyncEvaluator.swift:45-98 | Two accepted values have the same canonical text if and only if they are equal up to member order and normal form. |
| `CanonicalInjective.CanonicalizeDecides` | packages/calendar-sync/src/canonical.ts:16-35 | A value that is encoded rather than rejected shares its text with exactly those accepted values that are equal up to member order and normal form. |
| `CanonicalInjective.FingerprintDecides` | packages/calendar-sync/src/canonical.ts:16-39 | With an injective digest, so do fingerprints. |
| `CanonicalInjective.TextUnfold` | macos/Sources/PlanipusCore/CanonicalCalendarSyncEvaluator.swift:45-79 | A value is read back from the front of a longer text, with what follows it: no text continues another. |
| `CanonicalInjective.SameText` | packages/calendar-sync/src/canonical.ts:16-35 | Values equal up to member order and normal form get the same text. |
| `CanonicalInjective.EscapesArePrefixCode` | macos/Sources/PlanipusCore/CanonicalCalendarSyncEvaluator.swift:81-98 | The string escapes form a prefix code whose words never start with a quote. |
| `CanonicalInjective.QuoteUnfold` | macos/Sources/PlanipusCore/CanonicalCalendarSyncEvaluator.swift:81-98 | A quoted string ends where it ends: string and rest are determined. |
| `CanonicalInjective.DecimalUnfold` | packages/calendar-sync/src/canonical.ts:4-14 | A number and what follows it are determined by the text. |
| `CanonicalInjective.SortedKeysCoincide` | packages/calendar-sync/src/canonical.ts:24-34 | Two strictly sorted member lists with the same keys list them in the same order. |
| `CanonicalRead.ReadsBack` | packages/calendar-sync/src/canonical.ts:16-35 | A reader of JSON written from RFC 8259, without regard to the encoder, reads every canonical text, with anything after it that can follow a value, back as the value that was encoded, up to member order and normal form. |
| `CanonicalRead.StringBack` | macos/Sources/PlanipusCore/CanonicalCalendarSyncEvaluator.swift:81-98 | The reader gets every string back from its escapes. |
| `CanonicalRead.IntegerBack` | packages/calendar-sync/src/canonical.ts:4-14 | The reader gets every integer back from its digits, which have no leading zero. |
| `CanonicalJson.SafeExactly` | packages/calendar-sync/src/canonical.ts:8-10 | The numbers accepted are exactly the integers of size below 2^53. |
| `CanonicalJson.EscapedString` | macos/Sources/PlanipusCore/CanonicalCalendarSyncEvaluator.swift:81-98 | The loop over the scalars produces the quoted escape of the string. |
| `CanonicalJson.Ordered` | packages/calendar-sync/src/canonical.ts:24-34 | Sorting normalised members loses and invents none. |
| `LocalTime.FindCandidates` | macos/Sources/PlanipusCore/CanonicalCalendarSyncEvaluator.swift:592-601 | The sampling loop lists, in order and once each, the instants that read as requested under a sampled offset. |
| `LocalTime.Resolve` | macos/Sources/PlanipusCore/CanonicalCalendarSyncEvaluator.swift:577-625 | The answer depends on the set of candidates alone. |
| `LocalTime.CandidatesSampled` | macos/Sources/PlanipusCore/CanonicalCalendarSyncEvaluator.swift:592-601 | Whatever the zone does, the candidates are exactly the instants that read as requested and whose offset one of the seventeen six-hourly samples shows. |
| `LocalTime.LastingOffsetFound` | macos/Sources/PlanipusCore/CanonicalCalendarSyncEvaluator.swift:592-601 | So an instant is found whenever its offset lasts for six hours somewhere within 48 hours of the requested time. |
| `LocalTime.ExtremeIsChosen` | macos/Sources/PlanipusCore/CanonicalCalendarSyncEvaluator.swift:603-611 | Of several candidates the earliest or the latest is the answer, as configured, and it is noted as plain if and only if it is the only one. |
| `LocalTime.CandidatesExact` | macos/Sources/PlanipusCore/CanonicalCalendarSyncEvaluator.swift:592-601 | With one offset change nearby the candidates are exactly the instants that read as the requested local time. |
| `LocalTime.OccurringResolves` | macos/Sources/PlanipusCore/CanonicalCalendarSyncEvaluator.swift:603-611 | With one change nearby a local time that occurs resolves to an instant that reads it: the only one, or the earliest or latest as configured, and the note says which. |
| `LocalTime.SkippedLiesInGap` | macos/Sources/PlanipusCore/CanonicalCalendarSyncEvaluator.swift:612-625 | A local time that never occurs lies between the two readings of the change. |
| `LocalTime.GapShiftExactly` | macos/Sources/PlanipusCore/CanonicalCalendarSyncEvaluator.swift:612-625 | In a gap the shifted answer reads requested time plus gap if and only if the change falls within the 43,200-second probes; rejection is reported when configured. |
| `LocalTime.TwelveHoursSuffice` | macos/Sources/PlanipusCore/CanonicalCalendarSyncEvaluator.swift:612-625 | Offsets within 12 hours of UTC always put the change within the probes. |
| `LocalTime.DateLineChangeFails` | macos/Sources/PlanipusCore/CanonicalCalendarSyncEvaluator.swift:612-625 | A zone that skips a day across the date line makes the resolver give up although it was asked to shift. |
| `NativeHours.NativeScanExactly` | packages/calendar-sync/src/hours.ts:159-219 | For a zone that changes once, within twelve hours of UTC, the bounded scan under the native resolver finds, for every profile, mode and event, all that meets the event if and only if the change does not set the wall back over a midnight nor, when skipped times are shifted, carry one over it past later instants. |
| `NativeHours.NativeIsTight` | macos/Sources/PlanipusCore/CanonicalCalendarSyncEvaluator.swift:577-625 | In every zone that stays within 12 hours of UTC and changes gently, at most once within 48 hours, the native resolver meets the condition under which the scan is enough. |
| `NativeHours.BackIsNotTight` | macos/Sources/PlanipusCore/CanonicalCalendarSyncEvaluator.swift:603-611 | A zone set back over a midnight fails that condition, whichever offset is configured. |
| `NativeHours.OwnDateExactly` | macos/Sources/PlanipusCore/CanonicalCalendarSyncEvaluator.swift:577-625 | Near one change a resolved local time stays on its date if and only if it occurs or the gap does not carry it over midnight. |
| `NativeHours.LateGapIsNotTight` | macos/Sources/PlanipusCore/CanonicalCalendarSyncEvaluator.swift:612-625 | A zone in which a skipped time is shifted over a midnight, an instant of the next date coming before it, fails that condition too. |
| `Hours.ScanExactly` | packages/calendar-sync/src/hours.ts:159-219 | For every profile, mode and event the scanned dates yield all intervals of all dates that meet the event if and only if the zone is tight: after the start of whatever interval a date can have no earlier date is read, and before its end no date later than the next. |
| `Hours.ScanIsEnough` | packages/calendar-sync/src/hours.ts:190-219 | In a tight zone, when nothing in the scanned range is rejected, the intervals of all dates that meet the event are exactly the scanned ones that meet it. |
| `Hours.OverlapMeansOpen` | packages/calendar-sync/src/hours.ts:111-219 | In a tight zone, when nothing in the scanned range is rejected, some interval overlaps the event if and only if the profile is open at some instant of it. |
| `Hours.EvaluateHours` | packages/calendar-sync/src/hours.ts:159-245 | Invalid events, rejected times and ranges over 371 dates are reported as such; otherwise, in overlap mode, the event is included exactly when some scanned interval shares an instant with it and, in contained mode, when one has every instant of it; the matched intervals are exactly those, sorted and without duplicates. In tight zones they are those of all dates, and overlap means the profile is open at some instant of the event. |
| `Hours.ScanDates` | packages/calendar-sync/src/hours.ts:190-215 | The date loop collects the intervals of all dates of the range, or reports a rejection or more than 371 dates. |
| `Hours.DatePoints` | packages/calendar-sync/src/hours.ts:111-142 | The intervals of a date cover exactly the instants at which the profile is open on it: weekly hours changed by a closed, replace, add or remove exception. |
| `Hours.ExceptionIsFirst` | packages/calendar-sync/src/hours.ts:117-117 | The exception that counts for a date is the first one listed for it. |
| `Hours.MeetsInPoints` | packages/calendar-sync/src/hours.ts:206-211 | An interval overlaps an event if and only if they share an instant, and contains it if and only if it has every instant of it. |
| `Hours.SubtractEachPoints` | packages/calendar-sync/src/hours.ts:97-109 | Repeated removal leaves exactly the base points outside all removals, as non-empty half-open intervals. |
| `Hours.MaterializedPoints` | packages/calendar-sync/src/hours.ts:82-95 | Materialised intervals cover exactly the instants between the resolved local times. |
| `Hours.DeduplicateAndSort` | packages/calendar-sync/src/hours.ts:144-153 | The result is sorted without duplicates and has the same intervals. |
| `Hours.Matching` | packages/calendar-sync/src/hours.ts:216-236 | Exactly the meeting intervals are kept, in order. |
| `Hours.ContainmentImpliesOverlap` | packages/calendar-sync/src/hours.ts:206-219 | An interval contains a non-empty event if and only if every instant of the event lies in it, and then it overlaps it. |
| `EventId.Base32Hex` | macos/Sources/PlanipusGoogle/GoogleEventID.swift:28-48 | For every byte string the output has ceil(8n/5) five-bit symbols that spell the bytes followed by zero bits, with an accumulator below 2^12. |
| `EventId.PutOutSymbols` | macos/Sources/PlanipusGoogle/GoogleEventID.swift:38-42 | The inner loop moves whole symbols out of the accumulator without changing the value taken in so far. |
| `EventId.DecodeSpelling` | macos/Sources/PlanipusGoogle/GoogleEventID.swift:28-48 | A decoder recovers the bytes from any spelling of them. |
| `EventId.SpellingIsUnique` | macos/Sources/PlanipusGoogle/GoogleEventID.swift:28-48 | Equal byte strings have one spelling, and distinct ones of any lengths distinct spellings. |
| `EventId.LettersInjective` | macos/Sources/PlanipusGoogle/GoogleEventID.swift:29-29 | Different symbol strings are written with different letters of the alphabet. |
| `EventId.Deterministic` | macos/Sources/PlanipusGoogle/GoogleEventID.swift:9-26 | The id is the letter p followed by the spelling of the digest of the joined coordinates. |
| `EventId.JoinInjective` | macos/Sources/PlanipusGoogle/GoogleEventID.swift:16-23 | Parts without the separator are determined by their joined text. |
| `EventId.IdsAreJoins` | macos/Sources/PlanipusGoogle/GoogleEventID.swift:9-26 | With an injective digest two ids are equal if and only if the joined texts of their coordinates are, whatever the coordinates hold. |
| `EventId.IdsIdentify` | macos/Sources/PlanipusGoogle/GoogleEventID.swift:9-26 | When moreover no coordinate contains the separator, ids are equal if and only if the coordinates are, except that an absent occurrence and the occurrence master count as one. |
| `EventId.IdIsPermitted` | macos/Sources/PlanipusGoogle/GoogleEventID.swift:6-26 | An id holds only digits and the letters a to v, and with a 32-byte digest has 53 characters. |
| `FloodFill.RemoveBackground` | assets/mascot/remove_bg.py:9-37 | In every image exactly the pixels from which a walk over near-white pixels of the original, one step up, down, left or right at a time, leads to a corner become white with alpha 0; all others stay. |
| `FloodFill.Fill` | assets/mascot/remove_bg.py:23-37 | One breadth-first fill terminates and settles everything it visited. |
| `FloodFill.Turn` | assets/mascot/remove_bg.py:27-37 | One turn clears the head of the queue and visits its neighbours, keeping the invariant and making progress. |
| `FloodFill.VisitNeighbours` | assets/mascot/remove_bg.py:31-37 | Afterwards every background neighbour has been visited, and queue and visited set grew by the same points. |
| `FloodFill.ClearingKeepsBackground` | assets/mascot/remove_bg.py:29-35 | Clearing background pixels in place never changes a later background test. |
| `FloodFill.ClosedHoldsPaths` | assets/mascot/remove_bg.py:27-37 | A visited set closed under background neighbours holds every path that starts in it. |
| `FloodFill.JoinedIsConnected` | assets/mascot/remove_bg.py:9-37 | Being joined to a corner by such a walk is what the fill computes with its background set. |
| `Observations.OneSide` | macos/Sources/PlanipusStore/InMemoryPlanipusRepository.swift:60-102 | After a commit every old or staged key is stored or reported as a tombstone, never both, and no other key is either. |
| `Observations.LastWins` | macos/Sources/PlanipusStore/InMemoryPlanipusRepository.swift:81-96 | The last staged event under a key decides: it is stored, or its tombstone with its revision is reported. |
| `Observations.Unmentioned` | macos/Sources/PlanipusStore/InMemoryPlanipusRepository.swift:71-80 | A key the batch does not mention keeps its event, or loses it to the full-traversal window as a tombstone. |
| `Observations.TombstoneShows` | macos/Sources/PlanipusStore/InMemoryPlanipusRepository.swift:81-93 | The tombstone of a deletion shows what stood under the key just before, the event staged last or the stored one outside the window, or else the deletion itself, with the revision of the deletion if it has one. |
| `Observations.InWindowExactly` | macos/Sources/PlanipusStore/InMemoryPlanipusRepository.swift:71-80 | A full traversal covers exactly the events that share an instant with its window, or lie inside it if they have no duration. |
| `Observations.StoresAgreeExactly` | macos/Sources/PlanipusStore/ProductionStoreGate.swift:206-350 | The in-memory and the row store keep the same events and report the same tombstones on every batch over a set of identities if and only if no two of them share an in-memory key and no two share a joined row key, dictionary keys being compared up to canonical equivalence and row columns exactly. |
| `Observations.RowCommitRepresents` | macos/Sources/PlanipusStore/ProductionStoreGate.swift:206-330 | Where joined keys do not collide the row store commits as if keyed by identity, rows found by a pair and tombstones filed under the joined text. |
| `Observations.RowsStored` | macos/Sources/PlanipusStore/ProductionStoreGate.swift:255-330 | What the row store keeps is what a commit keyed by the pair keeps, collisions of the joined text notwithstanding. |
| `Observations.JoinedCollisionDiffers` | macos/Sources/PlanipusStore/ProductionStoreGate.swift:1051-1053 | Two identities with one joined row key but two in-memory keys make the reported tombstones differ. |
| `Observations.JoinedKeysCollide` | macos/Sources/PlanipusStore/ProductionStoreGate.swift:1051-1060 | Separator-free ids share a joined row key if and only if they, and the occurrence keys, are canonically equivalent. |
| `Observations.CommitRepresents` | macos/Sources/PlanipusStore/ProductionStoreGate.swift:255-350 | Where keys do not collide a commit does what it would do keyed by identity. |
| `Observations.CollisionDiffers` | macos/Sources/PlanipusStore/InMemoryPlanipusRepository.swift:231-233 | Two identities with one in-memory key make the stores differ. |
| `Observations.MemoryKeysCollide` | macos/Sources/PlanipusStore/InMemoryPlanipusRepository.swift:231-233 | Separator-free ids share an in-memory key if and only if they, and the occurrence texts, are canonically equivalent, an absent occurrence reading as the empty one. |
| `Observations.RowKeysDistinct` | macos/Sources/PlanipusStore/ProductionStoreGate.swift:1051-1060 | Row keys are equal if and only if the identities are. |
| `Observations.OccurrenceRoundTrip` | macos/Sources/PlanipusStore/ProductionStoreGate.swift:1057-1066 | Decoding an occurrence key gives the occurrence back if and only if it does not begin with a mark that joins the preceding character. |
| `FeedTraversal.SyncFeed` | macos/Sources/PlanipusSync/SyncCoordinator.swift:240-309 | A traversal succeeds if and only if the whole feed comes within maximumPages pages, the epoch current at every look; then it commits all pages with the newest cursor. Otherwise the failure is explained by the first obstacle, the observations stay and the cursor is unchanged, or cleared on expiry. Other batches are untouched. |
| `FeedTraversal.GatherPages` | macos/Sources/PlanipusSync/SyncCoordinator.swift:259-287 | The pages staged are the whole feed, or the failure is the first obstacle met: a changed epoch, the page limit, a refusal, an event of another calendar, or a repeated page token. |
| `FeedTraversal.TakePage` | macos/Sources/PlanipusSync/SyncCoordinator.swift:263-279 | One page is fetched and staged between two looks at the epoch, or its obstacle is reported and the batch is unchanged. |
| `FeedTraversal.ObstacleOrWhole` | macos/Sources/PlanipusSync/SyncCoordinator.swift:259-287 | A feed with an obstacle on the way does not come whole within the limit. |
| `FeedTraversal.ObservationStore.Commit` | macos/Sources/PlanipusStore/InMemoryPlanipusRepository.swift:60-102 | The in-place commit computes the specified tables, or fails and leaves observations and cursors alone. |
| `FeedTraversal.ObservationStore.Stage` | macos/Sources/PlanipusStore/InMemoryPlanipusRepository.swift:47-58 | Staging appends to a known batch of the same endpoint and mode with events of its calendar, and fails otherwise without a change. |
| `FeedTraversal.ObservationStore.BeginChangeBatch` | macos/Sources/PlanipusStore/InMemoryPlanipusRepository.swift:38-45 | A new batch is empty, its handle is new, and all other batches, observations and cursors stay. |
| `FeedTraversal.ObservationStore.Abandon` | macos/Sources/PlanipusStore/InMemoryPlanipusRepository.swift:104-106 | Abandoning drops only the batch. |
| `FeedTraversal.ObservationStore.ClearSyncToken` | macos/Sources/PlanipusStore/InMemoryPlanipusRepository.swift:34-36 | Clearing drops only the cursor of the endpoint. |
| `LockOrder.DeadlockFree` | server/src/calendar-protection-lock.ts:14-31 | For any number of transactions with any calendars and no hash collisions, no reachable state has a wait cycle or a lock with two holders, and some unfinished transaction can move. |
| `LockOrder.DeadlockFreeExactly` | server/src/calendar-protection-lock.ts:14-31 | Over any set of keys, every run of every system of sorted transactions is free of wait cycles if and only if keys that share a lock have no key with another lock between them. |
| `LockOrder.SeparatedIsEnough` | server/src/calendar-protection-lock.ts:14-31 | Under that condition no reachable state has a wait cycle or a lock with two holders, and some unfinished transaction can always move. |
| `LockOrder.LockPlan` | server/src/calendar-protection-lock.ts:19-23 | The key list holds the keys of the calendars, each once, in order. |
| `LockOrder.NoWaitCycle` | server/src/calendar-protection-lock.ts:25-30 | Sorted acquisition admits no cycle of waiting transactions. |
| `LockOrder.SomeoneMoves` | server/src/calendar-protection-lock.ts:25-30 | While one transaction is unfinished some unfinished one can take a lock or finish. |
| `LockOrder.BetweenDeadlocks` | server/src/calendar-protection-lock.ts:25-30 | Whenever a key with another lock lies between two keys that share a lock, two sorted transactions can end up waiting for each other. |
| `WorkerPool.SuccessIsSequential` | server/src/conflict-response/inputs.ts:271-370 | For every interleaving of the workers a successful query asks each group exactly once and collects what a sequential scan collects, within the limit. |
| `WorkerPool.SortedAnswerIsSequential` | server/src/conflict-response/inputs.ts:365-370 | Sorted by calendar, start and end, the answer of every successful interleaving is the sorted answer of a sequential scan, whatever sorting algorithm is used. |
| `WorkerPool.FailsExactlyOverLimit` | server/src/conflict-response/inputs.ts:319-329 | A finished query fails if and only if some answer is malformed or the total exceeds 50,000 intervals. |
| `WorkerPool.NeverMoreThanFour` | server/src/conflict-response/inputs.ts:359-364 | At no moment more than four groups are being asked, and none by two workers. |
| `WorkerPool.RunKeepsInv` | server/src/conflict-response/inputs.ts:271-370 | Every interleaving keeps the counter, the results and the groups being asked in step. |
| `Scheduling.ServedInOrder` | macos/Sources/PlanipusSync/SyncCoordinator.swift:350-366 | In every interleaving tasks enter the run slot in the order they asked, one at a time, and none is lost. |
| `Scheduling.WaiterGetsIn` | macos/Sources/PlanipusSync/SyncCoordinator.swift:350-366 | A waiting task with n others before it holds the slot after n + 1 departures. |
| `Scheduling.RunSlot.Acquire` | macos/Sources/PlanipusSync/SyncCoordinator.swift:350-358 | The caller goes on exactly if the slot was free, and queues at the end otherwise. |
| `Scheduling.RunSlot.Release` | macos/Sources/PlanipusSync/SyncCoordinator.swift:360-366 | The longest-waiting task takes the slot over; without one it becomes free. |
| `Scheduling.RunSlot.constructor` | macos/Sources/PlanipusSync/SyncCoordinator.swift:87-88 | The slot starts free. |
| `Scheduling.Pollers.SetLifecycle` | macos/Sources/PlanipusSync/SyncCoordinator.swift:117-161 | Online exactly the sources of active policies are polled, otherwise none; the epoch moves on. |
| `Scheduling.Pollers.StartPolling` | macos/Sources/PlanipusSync/SyncCoordinator.swift:165-174 | Adding or moving a policy keeps polled endpoints equal to the sources of active policies. |
| `Scheduling.Pollers.StopPolling` | macos/Sources/PlanipusSync/SyncCoordinator.swift:180-183 | Removing a policy stops its poller exactly if no other policy reads the endpoint. |
| `Scheduling.Pollers.StopAll` | macos/Sources/PlanipusSync/SyncCoordinator.swift:185-189 | Removing all policies stops all pollers. |
| `Scheduling.Pollers.StartIfNeeded` | macos/Sources/PlanipusSync/SyncCoordinator.swift:327-333 | An endpoint gets a poller only if it has none. |
| `Scheduling.Pollers.StopFeedIfUnused` | macos/Sources/PlanipusSync/SyncCoordinator.swift:335-339 | An endpoint loses its poller exactly if no active policy reads it. |
| `Scheduling.Pollers.constructor` | macos/Sources/PlanipusSync/SyncCoordinator.swift:91-107 | A new coordinator polls nothing. |
| `EvaluatorProperties.CopiedExactly` | packages/calendar-sync/src/evaluate.ts:254-360 | Order-free conditions under which an event is copied, created, or its copy deleted, and under which the copy shows as busy, each an if-and-only-if. |
| `EvaluatorProperties.DecideExactly` | packages/calendar-sync/src/evaluate.ts:254-332 | The cascade of checks stops, excludes or includes exactly under one flat condition each. |
| `EvaluatorProperties.KindExactly` | packages/calendar-sync/src/evaluate.ts:275-325 | Horizon, kind, free time and hours include an event exactly under one condition. |
| `CopyContents.CopyShowsExactly` | packages/calendar-sync/src/evaluate.ts:186-230 | A copy is private unless details are shared; summary, description, location and conference are those of the source where the manifest discloses them and generic or absent otherwise; colour and provenance are those of the policy and the projection, with their defaults. |
| `CopyContents.ManifestExactly` | packages/calendar-sync/src/evaluate.ts:231-252 | The manifest discloses exactly what the policy copies, nothing but the time under a redacted preset, omits every other field it could list, reads what it discloses and what every decision needs, and writes the members that the copy has. |
| `CopyContents.OperationExactly` | packages/calendar-sync/src/evaluate.ts:333-350 | A missing copy is created, one that differs or has another recorded fingerprint is updated, and nothing is done exactly otherwise, each with its own primary reason. |
| `CopyContents.VerdictExactly` | packages/calendar-sync/src/evaluate.ts:254-330 | An event is invalid, held, excluded or included exactly under one flat condition each. |
| `CopyContents.LeftAloneExactly` | packages/calendar-sync/src/evaluate.ts:64-80 | A detached or unclear copy is left alone with its own reason exactly when the policy is in force. |
| `CopyContents.ReasonHolds` | packages/calendar-sync/src/evaluate.ts:254-310 | The reason for which an event is stopped or left out names a condition that holds, and the source is blamed exactly if it was deleted or cancelled. |
| `CopyContents.ExclusionExactly` | packages/calendar-sync/src/evaluate.ts:64-80 | The first reason of an exclusion is its cause, and an attached copy is deleted for the sake of the source exactly if that is gone. |
| `CopyContents.InclusionExactly` | packages/calendar-sync/src/evaluate.ts:299-360 | A copied event is included with the reasons for its privacy and its operation, and with a warning exactly if it was free and is shown as busy. |
| `CopyContents.ReasonsExactly` | packages/calendar-sync/src/evaluate.ts:275-360 | A reason is listed for a copied event if and only if the condition it names holds. |
| `EvaluatorProperties.RedactedDisclosesNothing` | packages/calendar-sync/src/evaluate.ts:186-252 | Under redacted presets two sources that differ only in content, attendees, organizer, attachments, URL or metadata and agree on the no-sync test give identical results. |
| `EvaluatorProperties.OmittedLeavesNoTrace` | packages/calendar-sync/src/evaluate.ts:186-252 | Under every preset, changing a field the manifest lists as omitted changes nothing in the result, as long as the no-sync test says the same. |
| `EvaluatorProperties.MarkerIsVisible` | packages/calendar-sync/src/evaluate.ts:82-93 | The no-sync condition is needed: inputs that differ on it get different results. |
| `EvaluatorProperties.OneStepSuffices` | packages/calendar-sync/src/evaluate.ts:254-360 | Applying the returned operation and evaluating again returns no operation and the same desired copy, or the same exclusion. |
| `EvaluatorProperties.BlockedNeverWrites` | packages/calendar-sync/src/evaluate.ts:129-155 | Nothing is written for detached or ambiguous copies, inactive policies or invalid inputs. |
| `EvaluatorProperties.ManagedNeverCopied` | packages/calendar-sync/src/evaluate.ts:264-264 | A managed copy seen as a source is never copied. |
| `EvaluatorProperties.DriftExactly` | packages/calendar-sync/src/evaluate.ts:333-345 | An attached copy is restored for drift if and only if it differs from the desired one beyond member order and normal form. |
| `NoCopyOfCopy.StemsFromOriginal` | packages/calendar-sync/src/evaluate.ts:264-264 | In any run of any set of policies over any calendar graph every managed event stems from an original that stood at its source. |
| `NoCopyOfCopy.OneCopyPerCalendar` | macos/Sources/PlanipusGoogle/GoogleCalendarProvider.swift:338-344 | A policy has at most one copy of a source occurrence in any calendar. |
| `NoCopyOfCopy.NoFeedback` | packages/calendar-sync/src/evaluate.ts:333-341 | In every run, whatever policies are changed to, copies never outnumber policies, each counted with every destination it ever had, times places that ever held an original. |
| `NoCopyOfCopy.OneCopyPerDestination` | macos/Sources/PlanipusGoogle/GoogleCalendarProvider.swift:338-344 | Over all calendars a policy has at most as many copies of a source occurrence as it ever had destinations. |
| `NoCopyOfCopy.RunKeepsInv` | packages/calendar-sync/src/evaluate.ts:254-360 | Every run keeps every copy, present or observed, traced to an original and at its deterministic place. |
| `NoCopyOfCopy.CreateNeedsOriginal` | packages/calendar-sync/src/evaluate.ts:264-341 | A create is asked for only on behalf of an observed original. |
| `NoCopyOfCopy.SyncDoes` | packages/calendar-sync/src/evaluate.ts:333-360 | A pass does what the evaluator asks for at one place and touches no other. |

## Left out

- Screens, menu bar, OAuth, key storage, encryption, sessions, HTTP routes, tools, configuration, metrics, migrations, seed and worker commands: input and output around the cores.
- The server's `sync/`, `jobs/` and `planning/` directories and its provider internals.
- Status messages, timestamps such as `updatedAt`, error texts and audit details that no decision reads.
- SyncProtocol: unconditional convergence is not claimed, because an adopted create never compares content and tombstones are reconciled only in the pass that committed them. The destination event id in a provider's result is the one that was asked for.
- SyncProtocol: the policy decision is a free choice of each step; how it is made is the subject of PolicyEvaluator. The coordinator is modelled as a state machine and not as a class, because its runs interleave with crashes and other people's edits.
- SyncProtocol: a deleted event leaves its slot empty and reads as absent. Google can go on answering a read with the cancelled event, which the adapter passes on and the coordinator treats as present (macos/Sources/PlanipusGoogle/GoogleCalendarProvider.swift:285-289); other people's deletions of that kind are covered as edits that keep the markers, the coordinator's own are not.
- CrashReplay.DrainsAgree: at most one unfinished effect for a slot and for a projection key, no outside edits, and no error that reports a slot as missing or as another owner's when it is not; such an error makes the coordinator rewrite or give up the effect.
- RepairPass.Repaired: the outbox holds only completed work for the copy when the pass starts, and nobody edits the copy while it is drained.
- SyncProtocol: an idempotency key is the tuple of its parts; the original joins them with U+001F, and parts that contain it are not told apart.
- NoticeResolution.Restored: like the repair of a copy it starts from an outbox with only completed work for the copy, and nobody edits the copy while it is drained.
- Starvation freedom of the outbox: an ambiguous effect keeps its due time and stops the pass.
- DeclineBudget: a decline that reached the provider but whose transaction rolled back leaves no fact and is not counted. Row locks are modelled by taking each transaction as one step.
- ConflictResponse: the eligibility checks of an invitation and the hashes of preview and basis enter as parameters; only active, paused and deleted rules, and their four action states, are modelled.
- PolicyEvaluator: the JSON layout of a desired copy, whole-word search, blank tests, event bounds and the hours answer are parameters; the constant `reminders`, `write_controls` and version members of a copy are not shown. A generation that is not a safe integer makes the original throw.
- CanonicalJson: characters are Unicode scalars, so the escapes that JavaScript gives to lone surrogates are not modelled; members whose value is undefined are taken as absent.
- Hours.EvaluateHours: the mode that takes all times and the missing profile, both answered before the scan, diagnostics, and the second-precision keys of the duplicate map.
- LocalTime.GapShiftExactly: zones with several offset changes within 48 hours of the requested time.
- Exact reason codes of the two editions on over-long events, which differ.
- Strings other than the observation keys (endpoints, page tokens, projection keys) are compared exactly, where Swift identifies canonically equivalent ones.
- Observations: which of two stored rows with one joined key gives the tombstone of a full traversal is left open, and so is the order of the reported list.
- LockOrder: row locks taken beside the advisory locks.
- WorkerPool: texts of the errors.
- FloodFill.RemoveBackground: pictures with no pixels, on which the original fails at the first corner.
