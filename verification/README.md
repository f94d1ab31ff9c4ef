# MetaFlux core, verified models

Dafny models of the parts of MetaFlux core where ordering, recovery and identity matter, with proofs over every input,
every interleaving or every run. `dafny verify dfyconfig.toml` checks the whole project.

- `registry_*.dfy`: the shared registry view (`runtime.cpp`). One step is one atomic access; any number of readers, fence
  publishers, identity publishers, device-loss callers, closers and telemetry readers interleave. An assertion network in
  rely/guarantee form is shown inductive, and from it: validation linearizes at its first device load, closing is final,
  fences are never torn, and a telemetry read returns one whole row some publisher was asked for, copied between two
  validations. What each call comes to when it runs alone is stated exactly, for every argument and reachable state.
  "A committed LOST fence is never overwritten" is false of the code as a whole: `publish_device_identity` does not look at
  admission again after taking its latches. `RegistryResurrection` gives a run, and
  `RegistryLoss.LostFinalIffUnthreatened` says exactly when a LOST fence is final.
- `recovery_*.dfy`: the recovery model (`recovery_model.cpp`): the mutable object, the state machine it implements, the
  strengthening that makes its own `invariants_hold` inductive, crash equivalence, tiling of sequence ranges, publication
  without loss or repetition, and freedom from ABA in reads, admission tokens and lease commits. What the records say is
  tied to the answers callers got: stage calls succeed in their order, a lease that ends by recovery or close ends by
  whether a write for it succeeded, and from every idle state with room the calls do succeed. Every public method of the
  object keeps `Valid()`, the strengthening with the exact log of published numbers, and `RecoveryCalls.Meaning` lists what
  each call means to its caller. Two things a caller has to know: an owner that claims a publication with compensation
  cannot finish it, only recovery can (`OwnerFinishesIffNothingOwed`), and allocation and publication can end for good
  while the view is open and numbers are left. `RecoveryProgress.NeverAgainIffEnded` says exactly when: the head retires
  with a full archive, or while the range behind it is claimed but not open, or the publication under way can only spend
  the head; public calls reach each of these from every fresh model with some room.
- `lifecycle_*.dfy`, `fence_telemetry.dfy`: the lifecycle coordinator (`lifecycle.cpp`), its staged commit protocol over
  mirrors, exactly which requests it executes and how it answers the others, its whole-run guarantees and its refinement
  of the abstract model of `check-lifecycle-model.py`; that model's two assertions, which the tool explores to a bounded depth, hold for runs of any length. The fence/telemetry assertion
  holds for every bounds file the tool's loader accepts, once its identity is positive (`FenceTelemetry.AcceptedBoundsPass`);
  `FenceTelemetry.AssertionAlways` states exactly when it holds for bounds the loader would reject.
- `kernel_*.dfy`, `cache_key.dfy`, `text_encoding.dfy`: the Kernel IR verifier against a declarative definition and against
  a multi-thread semantics, the canonical text as an identity, and the cache key's pre-image as an identity. The verifier
  marks a result as defined before it looks at the inputs, so an operation may read its own result: `KernelSemantics.SelfReadIsAccepted`
  is such a kernel, and `KernelSemantics.AssignedUnlessSelfRead` says that this is exactly when an operation finds an input
  without a value.
- `artifact_*.dfy`: quotas, reservations, eviction and metadata of the persistent artifact cache (`artifact_cache.cpp`),
  shared by processes that may crash.
- `cdev_*.dfy`: reference counting of the cdev driver (`metaflux_core_main.c`), one step per critical section. A failed delivery
  undoes its section exactly, but for one case of a lease (`CdevState.LeaseUndoneIff`), and a mapping goes back to a file
  that asked for the right to it and has held it since.
- `cycle_finder.dfy`: the dependency cycle search of `check-agent-state.py`.

Objects and loops of the source are classes and methods here, proved against functions; what the source promises is proved
about those functions as lemmas over whole runs. Callbacks, clocks, the file system, memory allocation and copies to user
space are inputs of the steps. Integers are unbounded; where a width matters it is written out (32-bit update tags and feature
counts, saturating 64-bit sums, terminal values of generations, epochs, tags and latches).

## Model

| member | source | states |
|---|---|---|
| RegistryTheorems.ValidationLinearizes | runtime/core/src/runtime.cpp:969-1023 | In every interleaving a successful validation was for a handle of this view, found its device under the handle's identity and then with its generation, and has one instant after that, before its return, at which the view, the gate and the device admission are open, nobody is writing the device's fence, and the fence it returns is that device's fence: ONLINE, for the handle's identity record, and one whole payload |
| RegistryAlone.ValidatesIff | runtime/core/src/runtime.cpp:969-1023 | From every state of the assertion network, so from every reachable one: a validation run alone succeeds if and only if the handle names this view, the identity of a device and that device's committed generation, view and gate are open, the terminal flag is clear, control and fence latch are even, and the device is open with an ONLINE fence for that identity; it changes nothing, and otherwise it is answered by the first thing that is wrong |
| RegistryWriters.FencePublishesAlone | runtime/core/src/runtime.cpp:1025-1114 | publish_fence run alone, for every argument and state: the exact device and answer. It stores its payload and reopens with the next generation when it finds its admission word, its identity and a free latch; without its word it changes nothing; otherwise it leaves the device closed |
| RegistryWriters.LossMarksAlone | runtime/core/src/runtime.cpp:1116-1161 | mark_device_lost run alone, for every argument and state: with a sequence the device ends closed in any case, and its fence is made LOST exactly when the fence latch is even and not used up; without one nothing changes |
| RegistryWriters.IdentityPublishesAlone | runtime/core/src/runtime.cpp:833-967 | publish_device_identity run alone, for every argument and state: the exact answer, latches and device. The new identity, generation and fence are in place and the device open with the next word if all checks pass and all three latches are free; otherwise the device has its word back and only latches that were taken have moved |
| RegistryClosing.ClosesAlone | runtime/core/src/runtime.cpp:1300-1358 | close run alone: a terminal or quarantined view is left as it is; otherwise every device ends closed with the terminal generation, and gate, terminal flag and view end terminal, or the view quarantined when the control latch is not free |
| RegistryTheorems.NoValidationAfterClose | runtime/core/src/runtime.cpp:969-1023 | A validation invoked after its device was closed, or after the view left OPEN, never succeeds |
| RegistryTheorems.ShutIsFinal | runtime/core/src/runtime.cpp:1116-1138 | Device CLOSED and a view that is no longer OPEN are absorbing in every run |
| RegistryTheorems.StepKeepsClosed | runtime/core/src/runtime.cpp:1300-1332 | No step of any operation reopens a closed device or a view that left OPEN |
| RegistryTheorems.FencesNeverTorn | runtime/core/src/runtime.cpp:1025-1064 | In every reachable state a fence nobody is storing is word for word the initial fence or a payload some earlier call asked for on that device |
| RegistryTheorems.LostLeavesOnlyByIdentity | runtime/core/src/runtime.cpp:1025-1161 | A step takes a fence out of LOST if and only if it is publish_device_identity's store of the state word; a LOST fence belongs to a closed device, and publish_fence never stores a word over it |
| RegistryLoss.LostFinalIffUnthreatened | runtime/core/src/runtime.cpp:833-967 | In every reachable state with a LOST fence: it stays LOST under every continuation if nobody threatens it, that is, if no identity publisher of the device is past its claim and before its store of the state word with its next latch not overtaken; while the latches are not about to be used up, this is if and only if |
| RegistryLoss.UnthreatenedStaysLost | runtime/core/src/runtime.cpp:833-1161 | A LOST fence that nobody threatens stays LOST and unthreatened whatever any actor calls afterwards |
| RegistryLoss.ThreatComesTrue | runtime/core/src/runtime.cpp:893-967 | From every state of the assertion network in which a publisher threatens a device, and whose latches have room, there is a schedule after which the fence is not LOST: whoever holds a latch finishes, then the publisher does |
| RegistryLoss.Drain | runtime/core/src/runtime.cpp:886-967 | An actor that holds latches, run alone, gives up all of them within 17 steps and spoils no threat |
| RegistryLoss.LostIsFinal | runtime/core/src/runtime.cpp:1116-1161 | A device lost before any identity call on it stays LOST in every run, identity calls after the loss included |
| RegistryLatches.StepKeepsLatches | runtime/core/src/runtime.cpp:833-1358 | Every step keeps, beside the assertion network, that an odd control, fence or telemetry latch has exactly one holder |
| RegistryLatches.TelemetryStep | runtime/core/src/runtime.cpp:919-956 | A step takes the telemetry latch when it is even, releases it when it holds it, or leaves it; it never lowers it |
| RegistryTelemetry.TelemetryReadLinearizes | runtime/core/src/runtime.cpp:1242-1298 | A telemetry read that succeeds lies between two successful validations of its handle, each with its own instant as above, whose fences carry the same lifecycle sequence; between them it copied one whole row of the active bank, for the handle's identity and no older lifecycle sequence |
| RegistryTelemetry.CopyInstant | runtime/core/src/runtime.cpp:1250-1285 | The row and snapshot sequence a successful telemetry read returns are those of one state of the run in which nobody was storing telemetry |
| RegistryTelemetry.NoTelemetryAfterClose | runtime/core/src/runtime.cpp:1242-1298 | A telemetry read invoked after the device it finds was closed, or after the view left OPEN, never succeeds |
| RegistryRows.ReturnedRowIsPublished | runtime/core/src/runtime.cpp:1163-1298 | The row a successful telemetry read returns is, at the instant of its copy, one whole published row: its counters are those of the device's row in one publish_telemetry call issued before, or of the initial row, and its identity and sequence are that row's or those of one publish_device_identity call on the device |
| RegistrySampling.ReadsIff | runtime/core/src/runtime.cpp:1242-1298 | From every state of the assertion network: a telemetry read run alone succeeds if and only if a validation of its handle does, the telemetry latch is even, a bank is ready, and the device's row in it is for the handle's identity and no older than the fence; and it returns that row and its snapshot sequence word for word |
| RegistrySampling.PublicationStores | runtime/core/src/runtime.cpp:1195-1239 | The stores of a publication, made to their end, leave exactly the payload in the bank that was not active, which now is, and the other bank as it was; a payload of the wrong shape stores nothing |
| RegistrySampling.PublishedIsRead | runtime/core/src/runtime.cpp:1163-1298 | What such a publication stored is what a read finds: the payload's row of the device, word for word |
| RegistrySampling.IdentityRenames | runtime/core/src/runtime.cpp:938-956 | The four telemetry stores of an identity publication put its identity and sequence into the device's row of both banks and touch nothing else |
| RegistryRows.RecordsComeFromCalls | runtime/core/src/runtime.cpp:1163-1240 | What the history of telemetry payloads and identity names holds are arguments of calls issued earlier in the run |
| RegistryRows.StepKeepsBanks | runtime/core/src/runtime.cpp:938-1240 | Every step keeps what the two banks hold: the active bank whole rows, the bank being written a growing prefix of its writer's payload, and an identity publisher renames only its own device's row |
| RegistryRows.RunKeepsBanks | runtime/core/src/runtime.cpp:938-1240 | Every state of every run satisfies that |
| RegistryTelemetry.StepKeepsFull | runtime/core/src/runtime.cpp:1163-1298 | Every load, store and registry step of any interleaving keeps what each telemetry reader knows |
| RegistryTelemetry.ProjectedRun | runtime/core/src/runtime.cpp:1242-1298 | The registry steps of a run with telemetry readers are a run of the registry |
| RegistryResurrection.LostCanBeResurrected | runtime/core/src/runtime.cpp:893-937 | A concrete run of 38 steps in which an identity publisher that claimed the device before it was closed stores ONLINE over a committed LOST fence; the device stays closed |
| RegistryTheorems.RunTraced | runtime/core/src/runtime.cpp:969-1023 | In every run a reader's call was issued when its record says, and the instant it recorded is the state of the mapping at that time |
| RegistryTheorems.RunCarries | runtime/core/src/runtime.cpp:1066-1161 | In every run the payload a writer carries is the one its own call asked for |
| RegistryTheorems.OpenDeviceUnheld | runtime/core/src/runtime.cpp:1066-1114 | While a device is open no actor holds its fence latch |
| RegistrySafety.StepKeepsSystem | runtime/core/src/runtime.cpp:648-1358 | The assertion network over all program points and all pairs of actors is inductive: any step of any actor keeps it |
| RegistryTheorems.RunKeepsInvariant | runtime/core/src/runtime.cpp:648-1358 | Every state of every run satisfies the assertion network |
| RegistrySafety.PairKept | runtime/core/src/runtime.cpp:833-1161 | A step of one actor keeps what another actor on the same device knows, and their mutual exclusion |
| RegistrySafety.FarKept | runtime/core/src/runtime.cpp:833-1358 | A step keeps what actors on other devices know about the shared view and control words, and control-latch exclusion |
| RegistrySafety.WatchersCompatible | runtime/core/src/runtime.cpp:833-1161 | A third actor's step keeps the exclusion between two others |
| RegistryInvariants.ReaderStepKeeps | runtime/core/src/runtime.cpp:648-709 | Each load of a validation keeps what the reader knows: unless a latch or the admission word moved, what it read is still current |
| RegistryInvariants.WriterStepKeeps | runtime/core/src/runtime.cpp:1025-1114 | Each access of a fence write keeps its knowledge and stays within its rights: an ONLINE writer that wins the latch it loaded before checking admission finds a fence that is not LOST |
| RegistryInvariants.MarkStepKeeps | runtime/core/src/runtime.cpp:1116-1138 | Each access of device loss before its fence write keeps its knowledge and may only close the device |
| RegistryInvariants.IdentityWriteKnows | runtime/core/src/runtime.cpp:914-967 | While the new identity is stored the fence carries a growing prefix of the intended payload, and device and fence agree again before reopening |
| RegistryInvariants.IdentityUndoMoves | runtime/core/src/runtime.cpp:886-912 | Undoing a claim releases what was taken and restores exactly the word that was claimed |
| RegistryInvariants.CloseStepKeeps | runtime/core/src/runtime.cpp:1300-1358 | Each access of close keeps its knowledge and never reopens anything |
| RegistryInvariants.ReaderUndisturbed | runtime/core/src/runtime.cpp:969-1023 | Whatever another actor may do within its rights, a judging reader keeps a true picture of the device, even across a claim that is later undone |
| RegistryInvariants.OtherUndisturbed | runtime/core/src/runtime.cpp:833-1161 | Whatever another actor may do within its rights, a writer or closer keeps its knowledge |
| RecoveryInvariants.InvariantsHoldAlways | runtime/core/src/recovery_model.cpp:901-977 | From any valid configuration every sequence of public operations, dead-owner recovery, expiry, close and quarantine included, keeps invariants_hold true |
| RecoveryInvariants.ApplyInv | runtime/core/src/recovery_model.cpp:63-862 | The strengthened invariant over attempt, lease, update, ranges and publication is kept by every operation |
| RecoveryInvariants.RunInv | runtime/core/src/recovery_model.cpp:63-862 | Every state of every run satisfies the strengthened invariant |
| RecoveryInvariants.InvImpliesInvariantsHold | runtime/core/src/recovery_model.cpp:901-977 | The strengthened invariant implies the shipped predicate |
| RecoveryInvariants.InitialInv | runtime/core/src/recovery_model.cpp:8-24 | A valid configuration establishes the strengthened invariant |
| RecoveryInvariants.UpdateCrashEquivalence | runtime/core/src/recovery_model.cpp:415-446 | Killing a device updater at any point from linking on and recovering gives exactly the state of the live path finishing, owner aside |
| RecoveryInvariants.UpdateCrashBeforeLink | runtime/core/src/recovery_model.cpp:415-446 | Before linking, recovery consumes nothing and leaves the device words unchanged |
| RecoveryInvariants.PublicationCrashEquivalence | runtime/core/src/recovery_model.cpp:770-809 | Killing a publisher that owes no compensation at any point from linking on and recovering gives exactly the state its own remaining public calls reach, owner aside |
| RecoveryInvariants.PublicationCrashBeforeLink | runtime/core/src/recovery_model.cpp:770-809 | Before linking, recovery takes no sequence number, retires the range at the cursor, ends the publication and leaves everything else unchanged |
| RecoveryInvariants.UpdateRecoveryIdempotent | runtime/core/src/recovery_model.cpp:415-446 | A second recovery of a device update changes nothing |
| RecoveryInvariants.PublicationRecoveryIdempotent | runtime/core/src/recovery_model.cpp:770-809 | A second recovery of a publication changes nothing |
| RecoveryInvariants.LeaseRecoveryIdempotent | runtime/core/src/recovery_model.cpp:185-220 | A second recovery of a lease changes nothing |
| RecoveryInvariants.OwnerFinishesIffNothingOwed | runtime/core/src/recovery_model.cpp:727-746 | The owner's public calls finish a linked publication if and only if it was claimed without compensation |
| RecoveryInvariants.OwedPublicationWaits | runtime/core/src/recovery_model.cpp:658-755 | A marked publication that owes a compensation is moved by none of its owner's calls |
| RecoveryInvariants.CompensatingRecovery | runtime/core/src/recovery_model.cpp:757-809 | Recovery of a linked publication that owes a compensation publishes exactly the number after its target and retires the range behind it if that number is in the range, and otherwise quarantines the view |
| RecoveryProgress.NeverAgainIffEnded | runtime/core/src/recovery_model.cpp:497-809 | In every reachable state: if allocation and publication have ended, no sequence of public calls, recovery, expiry and close included, allocates or publishes another number; and while tags, generations and numbers are left this holds if and only if they have ended. Ended is read off the state: the view is shut and no claimed range can be opened; or the head is retired and the archive is full or the range behind it is claimed but not open; or both ranges are open and the publication under way can only spend the head |
| RecoveryProgress.EndedForever | runtime/core/src/recovery_model.cpp:472-862 | Ended is absorbing: from there on no call of any run moves the allocation high water or the publication cursor |
| RecoveryProgress.FollowingOpensIffHeadOpen | runtime/core/src/recovery_model.cpp:539-564 | A range claimed behind the head can be prepared and opened if and only if the head is open, and then allocates exactly up to its end |
| RecoveryProgress.StrandingHappens | runtime/core/src/recovery_model.cpp:497-616 | From every fresh model with room for four more ranges and publications, public calls reach the first way it ends: the head retires while the range behind it is claimed but not open |
| RecoveryProgress.ArchiveFills | runtime/core/src/recovery_model.cpp:472-537 | From the same states public calls reach the second way: the head retires with a full archive, nothing claimed behind it and numbers left |
| RecoveryProgress.OwedAtTheEnd | runtime/core/src/recovery_model.cpp:607-809 | From the same states public calls reach the third way: a publication that owes a compensation takes the last number of the head while both ranges are open |
| RecoveryProgress.OwedPublicationReached | runtime/core/src/recovery_model.cpp:618-746 | From every idle state with an open head public calls reach a published publication that owes a compensation, and its owner's call to finish it fails and changes nothing |
| RecoveryCalls.CallMeans | runtime/core/src/recovery_model.cpp:63-862 | On every reachable state every call means to its caller what is listed for it below |
| RecoveryCalls.ReservedTokenCommits | runtime/core/src/recovery_model.cpp:114-145 | A reserved lease hands out a token that commits it |
| RecoveryCalls.TokenCommitsIffCurrent | runtime/core/src/recovery_model.cpp:118-145 | A token commits if and only if it is the current admission token |
| RecoveryCalls.CommitCounts | runtime/core/src/recovery_model.cpp:147-154 | A commit adds exactly one to the commit counter, which never wraps around |
| RecoveryCalls.RecoveredLeaseOutcome | runtime/core/src/recovery_model.cpp:185-220 | Recovery releases a live lease exactly when its target write had landed and tombstones it otherwise |
| RecoveryCalls.WriteMeans | runtime/core/src/recovery_model.cpp:156-172 | A lease whose target is written or published outlives its owner: recovery would release it |
| RecoveryCalls.CloseShuts | runtime/core/src/recovery_model.cpp:275-315 | After a close no read finishes and no token commits, whatever its values, and no lease is live |
| RecoveryCalls.ExpiryShuts | runtime/core/src/recovery_model.cpp:222-229 | Expiry of a live owner quarantines the view and ends every admission |
| RecoveryCalls.LinkShuts | runtime/core/src/recovery_model.cpp:354-382 | Linking takes the next generation and epoch and ends every admission made before |
| RecoveryCalls.ReopenAdmits | runtime/core/src/recovery_model.cpp:394-403 | Reopening admits readers of the new generation and epoch |
| RecoveryCalls.ReservationAllocates | runtime/core/src/recovery_model.cpp:497-568 | A reservation appends exactly one open range to those opened so far, from the old high water to the new one |
| RecoveryCalls.AdvanceKeepsRanges | runtime/core/src/recovery_model.cpp:607-616 | Moving the head on keeps the sequence of opened ranges |
| RecoveryCalls.ClaimTakesNext | runtime/core/src/recovery_model.cpp:618-650 | A claim targets the first number of the head range that has not been published |
| RecoveryCalls.FinishRecordsUnused | runtime/core/src/recovery_model.cpp:709-746 | Finishing records as unused exactly the numbers of the range that were never published |
| RecoveryRuns.OpenedRangesTile | runtime/core/src/recovery_model.cpp:472-564 | At every reachable state the archived, head and following opened ranges tile the numbers from the initial to the current high water with no gap or overlap |
| RecoveryRuns.TileCovers | runtime/core/src/recovery_model.cpp:472-564 | A number above the initial and up to the final bound of a tiling lies in exactly one of its ranges |
| RecoveryRuns.PublicationExactAlways | runtime/core/src/recovery_model.cpp:607-645 | Over every run no sequence number is published twice, every published number was in an opened range, and each retired range's unused suffix is exactly its numbers the cursor never took |
| RecoveryRuns.NumberFate | runtime/core/src/recovery_model.cpp:683-725 | Every number of a retired range was either published exactly once or belongs to that range's unused suffix |
| RecoveryRuns.StepLog | runtime/core/src/recovery_model.cpp:63-862 | Every operation extends the publication log by exactly the numbers it takes |
| RecoveryRuns.RunLog | runtime/core/src/recovery_model.cpp:63-862 | The publication log of a run is the concatenation of what its operations took, and stays exact |
| RecoveryAdmission.ReadSeesNoChange | runtime/core/src/recovery_model.cpp:864-881 | A finish_read succeeds if and only if the control words it compares were the same in every state since its begin_read |
| RecoveryAdmission.TokenSeesNoChange | runtime/core/src/recovery_model.cpp:46-56 | An admission token is accepted later if and only if the control words, the lease and the attempt were the same in every state since it was taken |
| RecoveryAdmission.LeaseTagCommitsOnce | runtime/core/src/recovery_model.cpp:133-154 | Two commits of one run belong to leases with increasing tags, so each lease tag commits at most once |
| RecoveryAdmission.LeaseOutcomes | runtime/core/src/recovery_model.cpp:147-220 | In every state of a run committed admissions never exceed the lease tag, a released lease had its target written, and revoked and tombstoned leases did not |
| RecoveryStages.SettledByWrites | runtime/core/src/recovery_model.cpp:147-315 | In every run, by the answers of its calls: a lease is Released only if a write_lease_target or publish_lease call for its tag succeeded, and Tombstoned or Revoked only if none did; and a call other than release_lease that ends a Committed or Published lease without quarantine ends it Released if one did and Tombstoned otherwise |
| RecoveryStages.StagesInOrder | runtime/core/src/recovery_model.cpp:63-755 | In every run the stage calls of a lease, a device update, a range or a publication succeed in their order: whoever got through one has got through the one before, for the same tag |
| RecoveryLives.LeaseLives | runtime/core/src/recovery_model.cpp:63-241 | From every open and idle state with tags left a lease is admitted, committed with its token, written, published, released and reclaimed, each call succeeds, and the state is idle again with one more commit counted and nothing else changed |
| RecoveryLives.DeadLeaseEnds | runtime/core/src/recovery_model.cpp:63-220 | From the same states a lease is admitted and committed, its owner dies and is recovered: each call succeeds, and it ends Released if its target was written and Tombstoned if not |
| RecoveryLives.UpdateLives | runtime/core/src/recovery_model.cpp:317-413 | From every open state without an update under way, with a tag, a generation and an epoch left, an update is prepared, linked, published, reopened and finished, each call succeeds, and the device is open again with the next generation and epoch |
| RecoveryLives.PublicationLives | runtime/core/src/recovery_model.cpp:497-746 | From every open and idle state with room, a range of any length is reserved and its first number published, each call succeeds, and the rest of the range is recorded as unused |
| RecoveryLives.AbortSucceeds | runtime/core/src/recovery_model.cpp:709-755 | Given up before it is linked, a publication takes no number and its whole range is recorded as unused |
| RecoveryLives.ExpiryIff | runtime/core/src/recovery_model.cpp:222-229 | A live owner of a lease, update or publication under way can be expired, and nobody else; a refused expiry changes nothing |
| RecoveryAdmission.OpenControlsStable | runtime/core/src/recovery_model.cpp:275-315 | Control words that are open at both ends of a run with equal generations and epoch never changed in between |
| RecoveryAdmission.StepAdvances | runtime/core/src/recovery_model.cpp:63-862 | Every operation moves generations, epoch, tags and lease stages forward only |
| RecoveryAdmission.RunAdvances | runtime/core/src/recovery_model.cpp:63-862 | Over every run generations, epoch, tags and lease stages move forward only |
| RecoveryModel.Model.constructor | runtime/core/src/recovery_model.cpp:8-24 | A new model satisfies the invariant with an empty log, and counts as valid exactly for a valid configuration |
| RecoveryModel.Model.ReserveLease | runtime/core/src/recovery_model.cpp:114-116 | Keeps the invariant and the exact publication log, and admissions only move forward; a reserved lease has a token, and that token commits |
| RecoveryModel.Model.BeginTokenCommit | runtime/core/src/recovery_model.cpp:133-135 | Keeps the invariant and the exact publication log, and admissions only move forward; it succeeds if and only if the token is the current one |
| RecoveryModel.Model.FinishLeaseCommit | runtime/core/src/recovery_model.cpp:147-154 | Keeps the invariant and the exact publication log, and admissions only move forward; the commit counter grows by exactly one |
| RecoveryModel.Model.RecoverDeadLease | runtime/core/src/recovery_model.cpp:185-220 | Keeps the invariant and the exact publication log, and admissions only move forward; a live lease ends Released if its target was written and Tombstoned if not |
| RecoveryModel.Model.ExpireLiveLease | runtime/core/src/recovery_model.cpp:222-229 | Keeps the invariant and the exact publication log, and admissions only move forward; on success the view is quarantined and nothing is admitted |
| RecoveryModel.Model.CloseView | runtime/core/src/recovery_model.cpp:275-288 | Keeps the invariant and the exact publication log, and admissions only move forward; afterwards nothing is admitted and the view is terminal or quarantined |
| RecoveryModel.Model.CloseDevice | runtime/core/src/recovery_model.cpp:290-315 | Keeps the invariant and the exact publication log, and admissions only move forward; afterwards nothing is admitted |
| RecoveryModel.Model.LinkDeviceUpdate | runtime/core/src/recovery_model.cpp:380-382 | Keeps the invariant and the exact publication log, and admissions only move forward; on success generation and epoch are the next ones and nothing is admitted |
| RecoveryModel.Model.ReopenDeviceUpdate | runtime/core/src/recovery_model.cpp:394-403 | Keeps the invariant and the exact publication log, and admissions only move forward; on success readers of the new generation and epoch are admitted |
| RecoveryModel.Model.RecoverDeadDeviceUpdate | runtime/core/src/recovery_model.cpp:415-446 | Keeps the invariant and the exact publication log, and admissions only move forward; from linking on it does what the owner's remaining calls would have done |
| RecoveryModel.Model.ExpireLiveDeviceUpdate | runtime/core/src/recovery_model.cpp:448-458 | Keeps the invariant and the exact publication log, and admissions only move forward; on success the view is quarantined and nothing is admitted |
| RecoveryModel.Model.ReserveRange | runtime/core/src/recovery_model.cpp:566-568 | Keeps the invariant and the exact publication log, and admissions only move forward; on success exactly the next numbers are allocated |
| RecoveryModel.Model.AdvanceRangeHead | runtime/core/src/recovery_model.cpp:607-616 | Keeps the invariant and the exact publication log, and admissions only move forward; no opened range is forgotten |
| RecoveryModel.Model.ClaimPublication | runtime/core/src/recovery_model.cpp:618-645 | Keeps the invariant and the exact publication log, and admissions only move forward; on success the target is the first unpublished number of the head range |
| RecoveryModel.Model.ClaimCurrentPublication | runtime/core/src/recovery_model.cpp:647-650 | Keeps the invariant and the exact publication log, and admissions only move forward; on success the target is the first unpublished number of the head range |
| RecoveryModel.Model.ApplyPublication | runtime/core/src/recovery_model.cpp:683-697 | Keeps the invariant and the exact publication log, and admissions only move forward; on success the log grows by exactly the target |
| RecoveryModel.Model.FinishPublication | runtime/core/src/recovery_model.cpp:727-746 | Keeps the invariant and the exact publication log, and admissions only move forward; on success the recorded unused suffix is exactly what was never published |
| RecoveryModel.Model.RecoverDeadPublication | runtime/core/src/recovery_model.cpp:770-809 | Keeps the invariant and the exact publication log, and admissions only move forward; the log grows by what was published; without compensation it does what the owner's remaining calls would have done, with one it succeeds exactly when the next number is in the range |
| RecoveryModel.Model.ExpireLivePublication | runtime/core/src/recovery_model.cpp:842-853 | Keeps the invariant and the exact publication log, and admissions only move forward; on success the view is quarantined and nothing is admitted |
| LifecycleStages.MirrorSeesPrefix | runtime/core/src/lifecycle.cpp:266-312 | For any mirrors, callback answers and clock each mirror sees a prefix of prepare, quiesce, drain, commit; it is touched iff it was called, committed iff its commit was called and said yes, and sees all of it when the stages complete |
| LifecycleStages.AbortReachesTouched | runtime/core/src/lifecycle.cpp:314-336 | Abort reaches exactly the mirrors that were called, did not commit and have an abort callback, once each and last |
| LifecycleStages.LossReachesAll | runtime/core/src/lifecycle.cpp:338-356 | A loss announcement reaches every mirror that listens for it, after everything else |
| LifecycleStages.ForwardDoes | runtime/core/src/lifecycle.cpp:266-312 | The four stages run in rounds in mirror order; a round starts only when the one before went through, and a torn commit has a refusal or a timeout |
| LifecycleRuns.AllOrLost | runtime/core/src/lifecycle.cpp:366-572 | A generation becomes Online only if every non-null commit said yes; a stop before any commit leaves only burnt candidates; a stop after some commit leaves the candidate Lost; removal always settles Absent; the callbacks made are exactly those of the protocol |
| LifecycleAdmission.AnswerIsExact | runtime/core/src/lifecycle.cpp:170-183 | A call changes the authority, its records or a mirror only if the request is new, nonzero and well formed, names this device and incarnation and the live epoch, identity and generation, finds room for its record, and both clock reads come before its deadline, and it is recorded exactly then; Conflict, Duplicate, Stale, ResourceExhausted, Timeout and Invalid each have their exact condition in the fields of request, authority and configuration |
| LifecycleAdmission.RefusedAtOnceIff | runtime/core/src/lifecycle.cpp:366-572 | An executed operation runs its stages if and only if the live state admits it and candidates, epochs and tombstones are left |
| LifecycleAdmission.RefusalReasons | runtime/core/src/lifecycle.cpp:366-572 | The answer of an operation refused at once, by operation, state and capacity |
| LifecycleAdmission.CommitAnnouncesOutcome | runtime/core/src/lifecycle.cpp:75-125 | The state a commit callback announces is the one the authority has when the operation is accepted |
| LifecycleStages.AnnouncesProgress | runtime/core/src/lifecycle.cpp:75-125 | What is announced follows the stages: each stage announces a state further on the way down and up again, only a commit announces Online, and nothing on the way Lost |
| LifecycleStages.CompletesIff | runtime/core/src/lifecycle.cpp:266-312 | All four stages go through if and only if every callback agrees and each of the four clock reads per mirror comes before the deadline; a time-out means a read did reach it, any other stop means a callback refused |
| LifecycleAdmission.ResolutionIsHistory | runtime/core/src/lifecycle.cpp:661-675 | Over every run a generation resolves to Online exactly while it is live and online, to DeviceLost exactly when it was live at some time and is not online now, and to Unknown exactly when it never was live |
| LifecycleAdmission.RetiredNeverExecutes | runtime/core/src/lifecycle.cpp:170-183 | Once a generation has been retired no request that names it has any effect, in any continuation of the run |
| LifecycleRuns.ApplyIsChange | runtime/core/src/lifecycle.cpp:574-634 | Every apply is one admissible change of the authority plus, when it executes, one record; candidates are the next numbers after the high-water marks |
| LifecycleRuns.ApplyKeepsInv | runtime/core/src/lifecycle.cpp:574-634 | Every apply keeps the authority's invariant |
| LifecycleRuns.RunKeepsInv | runtime/core/src/lifecycle.cpp:226-264 | Over every run epoch is the initial epoch plus the tombstone count, tombstone generations strictly increase, and no terminal value is reached |
| LifecycleRuns.ResolutionMovesForward | runtime/core/src/lifecycle.cpp:661-675 | Over every run a generation's resolution only moves Unknown, Online, DeviceLost, and a consumed candidate that was not installed stays Unknown for ever |
| LifecycleRuns.CandidatesNeverReused | runtime/core/src/lifecycle.cpp:226-239 | A reserved candidate is above every generation consumed before, and later candidates are larger still |
| LifecycleRuns.OneTransactionPerRequest | runtime/core/src/lifecycle.cpp:574-634 | Once a request has executed, every later call with its identifier changes nothing and calls no mirror: Duplicate with the first candidate, or Conflict |
| LifecycleRefinement.ApplyRefines | runtime/core/src/lifecycle.cpp:574-634 | Every apply is a stutter, a record-only step when a fixed capacity is used up, or the abstract apply_lifecycle step with fault none, pre_commit or post_commit |
| LifecycleRefinement.RunSimulates | runtime/core/src/lifecycle.cpp:574-634 | The abstraction of every coordinator run is a run of the abstract model, label by label: an abstract action, its replay for a stutter, or a step that only records the request |
| LifecycleRefinement.CoordinatorRunsModel | tools/check-lifecycle-model.py:503-605 | From a configuration that does not start lost, as long as no fixed capacity is used up, the abstraction of a coordinator run is the abstract model's run of the corresponding actions from its initial snapshot |
| LifecycleRefinement.ChangeRefines | tools/check-lifecycle-model.py:503-605 | How each change of the authority looks in the abstract model |
| LifecycleRefinement.CoordinatorMeetsAssertion | tools/check-lifecycle-model.py:1008-1067 | Every authority the coordinator reaches passes the abstract model's own assertion |
| LifecycleRefinement.InitialRefines | tools/check-lifecycle-model.py:432-452 | The initial authority is the abstract initial snapshot exactly when it does not start lost |
| LifecycleModel.SnapshotAssertionAlways | tools/check-lifecycle-model.py:1008-1067 | For all bounds whose initial snapshot passes the assertion, every snapshot of every run of lifecycle, capture and reinit events passes it |
| LifecycleModel.EffectKeeps | tools/check-lifecycle-model.py:503-605 | Every lifecycle event with every fault keeps the strengthened assertion |
| LifecycleModel.ViewKeeps | tools/check-lifecycle-model.py:608-624 | Every provider capture keeps the strengthened assertion |
| LifecycleCoordinator.Invoke | runtime/core/src/lifecycle.cpp:266-312 | The loop over the mirrors computes one round of the protocol |
| LifecycleCoordinator.AbortTouched | runtime/core/src/lifecycle.cpp:314-336 | The loop aborts exactly the touched, uncommitted mirrors |
| LifecycleCoordinator.AnnounceLoss | runtime/core/src/lifecycle.cpp:338-356 | The loop announces the loss to every listening mirror |
| LifecycleCoordinator.RunStages | runtime/core/src/lifecycle.cpp:389-397 | The stages in order, stopping at the first that fails |
| LifecycleCoordinator.Coordinator.constructor | runtime/core/src/lifecycle.cpp:28-51 | A coordinator starts as its configuration says, is valid exactly for a valid one, and then satisfies the authority's invariant |
| LifecycleCoordinator.Coordinator.RegisterMirror | runtime/core/src/lifecycle.cpp:127-141 | Registration succeeds exactly for a named mirror of a free known kind while there is room, and appends it |
| LifecycleCoordinator.Coordinator.FindRequest | runtime/core/src/lifecycle.cpp:185-202 | The scan finds the first record with the identifier |
| LifecycleCoordinator.Coordinator.ReserveCandidate | runtime/core/src/lifecycle.cpp:226-239 | Keeps the authority's invariant; a candidate is handed out exactly while both terminals are ahead, and its generation is one that resolves to Unknown |
| LifecycleCoordinator.Coordinator.ApplyAdd | runtime/core/src/lifecycle.cpp:366-418 | The new authority, result, candidate and callbacks are those of the transaction results |
| LifecycleCoordinator.Coordinator.ApplyRemove | runtime/core/src/lifecycle.cpp:420-480 | The new authority, result and callbacks are those of the transaction results |
| LifecycleCoordinator.Coordinator.ApplyResetOrRecover | runtime/core/src/lifecycle.cpp:482-547 | The new authority, result, candidate and callbacks are those of the transaction results |
| LifecycleCoordinator.Coordinator.ApplyTransportLoss | runtime/core/src/lifecycle.cpp:549-572 | The new authority, result and callbacks are those of the transaction results |
| LifecycleCoordinator.Coordinator.Apply | runtime/core/src/lifecycle.cpp:574-634 | The new authority, result, candidate and callbacks are those the whole-run results are about, and the authority's invariant is kept; anything changes only for an admissible request, and each early answer has its exact condition |
| LifecycleCoordinator.Coordinator.ResolveGeneration | runtime/core/src/lifecycle.cpp:661-675 | The scan gives the resolution the whole-run results are about |
| FenceTelemetry.AssertionAlways | tools/check-lifecycle-model.py:627-684 | Every snapshot of every run passes the full assertion if and only if a read may try at least once or the device starts lost |
| FenceTelemetry.AcceptedBoundsPass | tools/check-lifecycle-model.py:219-258 | For every bounds file the loader accepts, every snapshot of every run passes the full assertion if and only if its generation, epoch and fence sequence are positive |
| FenceTelemetry.NoAttemptsOverruns | tools/check-lifecycle-model.py:795-806 | With no attempt allowed, which the loader rejects, a three-event run would break the retry bound |
| FenceTelemetry.LossIsFinal | tools/check-lifecycle-model.py:687-873 | After a committed loss no event, stale telemetry included, makes device, telemetry or a completed read say ONLINE again |
| FenceTelemetry.WriterKeeps | tools/check-lifecycle-model.py:690-775 | Every fence or telemetry writer event keeps the strengthened assertion |
| FenceTelemetry.ReaderKeeps | tools/check-lifecycle-model.py:777-871 | Every reader event keeps the strengthened assertion |
| KernelIr.VerifyKernel | compiler/core/src/kernel_ir.cpp:326-553 | The forward scan with its table of defined registers accepts exactly the well-formed kernels; a read may be of the operation's own result |
| KernelIr.CheckHeader | compiler/core/src/kernel_ir.cpp:330-391 | No diagnostic exactly when versions, name, bounds, kinds and the barrier/branch exclusion hold |
| KernelIr.CheckShared | compiler/core/src/kernel_ir.cpp:352-359 | No diagnostic exactly when every shared allocation is non-empty and the total fits |
| KernelIr.CheckOperation | compiler/core/src/kernel_ir.cpp:393-547 | No code exactly when opcode, result, inputs, guard and attribute are well formed, and the table gains exactly the operation's result |
| KernelIr.CheckResult | compiler/core/src/kernel_ir.cpp:408-430 | The result check accepts exactly a first definition of the right kind and updates the table before inputs are looked at |
| KernelIr.CheckInputs | compiler/core/src/kernel_ir.cpp:432-452 | With the right operand count the input check accepts exactly contracted kinds of registers defined up to and including this operation |
| KernelIr.CheckGuard | compiler/core/src/kernel_ir.cpp:454-476 | The guard check accepts exactly a defined predicate on an operation that may carry one |
| KernelIr.CheckAttribute | compiler/core/src/kernel_ir.cpp:478-546 | The attribute check accepts exactly valid selectors, forward branches to the final return, and a final return |
| KernelSemantics.AcceptedKernelIsSafe | compiler/core/src/kernel_ir.cpp:326-553 | For every accepted kernel, block size, schedule and computed values: each thread executes at most as many operations as the kernel has, reads only assigned registers of the contracted kind (its own result apart), assigns each register at most once, and all threads have passed the same barriers |
| KernelSemantics.BarriersConverge | compiler/core/src/kernel_ir.cpp:382-391 | Threads that wait, wait at the same barrier, and none has halted: no barrier diverges |
| KernelSemantics.BlockProgresses | compiler/core/src/kernel_ir.cpp:382-391 | While some thread has not halted some move is enabled |
| KernelSemantics.EveryThreadHalts | compiler/core/src/kernel_ir.cpp:326-553 | No schedule of an accepted kernel makes more than a number of moves that kernel and block size bound, and when no move is left every thread has halted |
| KernelSemantics.HaltsInTheEnd | compiler/core/src/kernel_ir.cpp:382-391 | Every schedule can be continued until every thread has halted |
| KernelSemantics.AssignedUnlessSelfRead | compiler/core/src/kernel_ir.cpp:408-476 | In every reachable state the next operation of a running thread finds all its inputs assigned if and only if it does not read its own result; assigned inputs are of the contracted kind, and a guard is always assigned |
| KernelSemantics.InputAssigned | compiler/core/src/kernel_ir.cpp:408-452 | Input by input: a register is assigned if and only if it is not the operation's own result |
| KernelSemantics.NoSelfReadMeansAssigned | compiler/core/src/kernel_ir.cpp:408-452 | A kernel in which no operation reads its own result reads assigned registers only, under every schedule |
| KernelSemantics.SelfReadIsAccepted | compiler/core/src/kernel_ir.cpp:408-452 | A concrete accepted kernel whose first operation reads its own, still unassigned, result |
| KernelText.CanonicalIdentity | compiler/core/src/kernel_ir.cpp:555-599 | Two verified kernels have the same canonical text if and only if they agree on everything but source locations and unused input slots |
| KernelText.SerializeKernel | compiler/core/src/kernel_ir.cpp:555-599 | The text is the canonical text of a well-formed kernel and empty, with diagnostics, for any other |
| KernelText.WriteOperation | compiler/core/src/kernel_ir.cpp:578-596 | The operation line is its words separated by blanks |
| KernelNames.OpcodeNamesDiffer | compiler/core/src/kernel_ir.cpp:231-324 | No two valid opcodes share a name |
| KernelNames.KindNamesDiffer | compiler/core/src/kernel_ir.cpp:213-229 | No two valid value kinds share a name |
| CacheKey.PreimageIdentity | compiler/core/src/cache.cpp:165-189 | The cache key pre-images of two identities and texts are equal if and only if every identity field and the text agree, features compared as sets |
| CacheKey.KeyIdentity | compiler/core/src/cache.cpp:165-189 | For any digest without a collision on the two pre-images the keys agree exactly when identities and texts do |
| CacheKey.BuildPreimage | compiler/core/src/cache.cpp:165-189 | Appending the fields in order builds that pre-image |
| CacheKey.SortFeatures | compiler/core/src/cache.cpp:174-176 | The features come out strictly ascending, with exactly the elements that went in, and are the canonical list the key is written from |
| CacheKey.AscendingUnique | compiler/core/src/cache.cpp:174-176 | An ascending list without repetition is determined by its set of elements |
| TextEncoding.FieldIsFirst | compiler/core/src/cache.cpp:119-130 | A length-prefixed field at the front of a string determines its name, its value and what follows |
| TextEncoding.BeforeIsLexicographic | compiler/core/src/artifact_cache.cpp:862-868 | The order of keys is lexicographic: at the first difference the smaller character, or the end of the string, comes first |
| TextEncoding.TextInjective | compiler/core/src/kernel_ir.cpp:561-598 | A text determines its lines and their words |
| ArtifactSafety.CacheAlwaysWithinQuota | compiler/core/src/artifact_cache.cpp:1229-1362 | From an empty store, for limits below 2^64-1 and any mix of processes, reservations, publications, lookups, invalidations and crashes: committed plus live reserved bytes stay within the per-uid and global quotas, and at most one live reservation exists per uid and key |
| ArtifactSafety.StepKeepsQuota | compiler/core/src/artifact_cache.cpp:1229-1362 | Once a quota holds every step keeps it |
| ArtifactSafety.GrantEstablishesQuota | compiler/core/src/artifact_cache.cpp:1229-1322 | A granted reservation establishes the user's and the global quota, whatever held before |
| ArtifactSafety.StepAccounts | compiler/core/src/artifact_cache.cpp:1324-1391 | No step but a granted reservation adds to a scope's account |
| ArtifactSafety.StepKeepsSlots | compiler/core/src/artifact_cache.cpp:1229-1362 | Every step keeps one entry and one live reservation per slot, never both |
| ArtifactSafety.RunKeeps | compiler/core/src/artifact_cache.cpp:1229-1362 | Over every run quotas once established and slot uniqueness are kept |
| ArtifactSafety.PinnedSurvives | compiler/core/src/artifact_cache.cpp:860-885 | No step removes an entry pinned by some readers, and none but a reader's release takes a pin from it, and then exactly one |
| ArtifactSafety.PinnedSurvivesRuns | compiler/core/src/artifact_cache.cpp:860-885 | An entry pinned by n readers is still there, with the remaining pins, after every run of any processes in which fewer than n of them let go |
| ArtifactSafety.LookupHolds | compiler/core/src/artifact_cache.cpp:1109-1227 | A lookup pins the entry it found, marks it as just used and touches no other; the entry is there after every run in which nobody lets go of the slot |
| ArtifactSafety.CrashFreesOwn | compiler/core/src/artifact_cache.cpp:790-847 | A process that dies gives up its reservations and key locks, all of them and nobody else's, and no entry |
| ArtifactStore.EvictOne | compiler/core/src/artifact_cache.cpp:860-885 | The evicted entry is unpinned and in scope, and every other such entry was used later, or at the same time with a key that does not come before; eviction fails only if there is none or its directory cannot be removed |
| ArtifactStore.SortByUse | compiler/core/src/artifact_cache.cpp:862-868 | A permutation of the candidates in eviction order |
| ArtifactStore.ComputeUsage | compiler/core/src/artifact_cache.cpp:887-896 | The saturating fold is the true sum clamped to 64 bits |
| ArtifactStore.ComputeReserved | compiler/core/src/artifact_cache.cpp:849-858 | The saturating fold is the true sum clamped to 64 bits |
| ArtifactCache.TrimToLimit | compiler/core/src/artifact_cache.cpp:1273-1287 | The eviction loop ends; it succeeds if and only if entries, reservations and the new bytes then fit the limit; every eviction was made in scope while they did not, so nothing is evicted when they fit at once; on refusal nothing in scope can be evicted |
| ArtifactCache.TrimToSpace | compiler/core/src/artifact_cache.cpp:1288-1304 | The free-space loop ends, evicts least recently used first and only while space is short, and succeeds if and only if the available and reclaimed bytes suffice |
| ArtifactCache.MakeRoom | compiler/core/src/artifact_cache.cpp:1273-1304 | The three loops together leave a chain of least-recently-used evictions, each made while the demand was not met and among the user's own entries as long as the user's quota was exceeded; they succeed if and only if both quotas hold and the space suffices, and a refusal is hopeless |
| ArtifactCache.ChainKeepsPinned | compiler/core/src/artifact_cache.cpp:860-885 | A chain of evictions only removes entries, and never a pinned one |
| ArtifactCache.SaturatedSum | compiler/core/src/artifact_cache.cpp:340-345 | Saturated addition of clamped sums is the clamped true sum |
| ArtifactCache.PercentageIsExact | compiler/core/src/artifact_cache.cpp:347-354 | The percentage computed in hundreds and remainders is the exact one, clamped to 64 bits |
| ArtifactCache.Cache.Reserve | compiler/core/src/artifact_cache.cpp:1229-1322 | The operation is a key lock followed by one reservation step of the shared store. A reservation is granted if and only if the scans succeed, there is no entry yet, what is left fits quotas and space, the file system could be asked and the record was written; existing entries, exceeded quotas, I/O errors, bad keys and bad sizes have their exact conditions too; evictions are minimal, and when the demand fits at once nothing is evicted |
| ArtifactCache.Cache.Publish | compiler/core/src/artifact_cache.cpp:1324-1350 | The operation is one publication step of the shared store; the entry is there exactly when the artifact fitted, was renamed into place and nothing was in the way, and each error has its exact condition: a failure after the rename, of the directory sync or of the removal of the record, is an I/O error with the entry in place |
| ArtifactMetadata.RoundTrip | compiler/core/src/artifact_cache.cpp:450-526 | Every valid metadata record is read back as it was written |
| ArtifactMetadata.ParsedIsValid | compiler/core/src/artifact_cache.cpp:474-526 | Whatever the parser accepts is a valid record that is written and read back unchanged |
| ArtifactMetadata.SerializedFits | compiler/core/src/artifact_cache.cpp:450-463 | The text of a valid record never exceeds the 16 KiB read bound |
| ArtifactMetadata.ParseFields | compiler/core/src/artifact_cache.cpp:474-495 | The parser's loop computes the table of fields, or nothing on a malformed line or a repeated name |
| CdevState.CountsAreHolders | linux-kernel-drivers/core/metaflux_core_main.c:763-1430 | In every reachable state both reference counts equal root plus owner or creator plus lease plus mappings plus work in flight, a mapping exists exactly while a holder does, and creator and lease holder are unique |
| CdevState.FreshCountOnlyWhenUnheld | linux-kernel-drivers/core/metaflux_core_main.c:409-423 | The payload count is initialised again only when nobody holds the payload |
| CdevState.StepKeeps | linux-kernel-drivers/core/metaflux_core_main.c:763-1430 | Every critical section keeps the counting invariant |
| CdevState.CreateKeeps | linux-kernel-drivers/core/metaflux_core_main.c:791-840 | Queue creation adds exactly one holder |
| CdevState.CreateReturnKeeps | linux-kernel-drivers/core/metaflux_core_main.c:842-860 | Undoing a failed creation drops exactly that holder |
| CdevState.LeaseKeeps | linux-kernel-drivers/core/metaflux_core_main.c:889-942 | A worker lease adds exactly one holder |
| CdevState.LeaseReturnKeeps | linux-kernel-drivers/core/metaflux_core_main.c:944-963 | Undoing a failed lease drops exactly that holder |
| CdevState.AllocateKeeps | linux-kernel-drivers/core/metaflux_core_main.c:394-433 | Allocation starts with a root, an owner and an operation reference |
| CdevState.AllocateReturnKeeps | linux-kernel-drivers/core/metaflux_core_main.c:435-461 | Finishing or undoing an allocation drops exactly the references it must |
| CdevState.ReleaseKeeps | linux-kernel-drivers/core/metaflux_core_main.c:1246-1300 | Closing a file drops exactly the references that file holds |
| CdevState.ExitKeeps | linux-kernel-drivers/core/metaflux_core_main.c:1391-1430 | Unloading drops exactly the remaining root references |
| CdevState.PayloadCountsKept | linux-kernel-drivers/core/metaflux_core_main.c:1082-1171 | Mapping the payload, and opening and closing its mappings, move count and holders together |
| CdevState.QueueCountsKept | linux-kernel-drivers/core/metaflux_core_main.c:967-1222 | Waiting, polling and mapping the queue, and opening and closing its mappings, move count and holders together |
| CdevRights.MappersAsked | linux-kernel-drivers/core/metaflux_core_main.c:1140-1171 | Over every run, a call of mmap that adds a mapping of the payload is made by the file that allocated it or by a control file that took the lease, and that file has held the right without interruption since it asked |
| CdevRights.QueueMappersAsked | linux-kernel-drivers/core/metaflux_core_main.c:1173-1195 | The same for the queue: the file that created it, or the one that took the lease |
| CdevRights.PayloadMapped | linux-kernel-drivers/core/metaflux_core_main.c:1149-1171 | A section adds a mapping of the payload if and only if a mapping is copied or a file with the right maps it while it is online |
| CdevRights.QueueMapped | linux-kernel-drivers/core/metaflux_core_main.c:1173-1195 | A section adds a mapping of the queue if and only if a mapping is copied or its creator or lease holder maps it while it is online |
| CdevRights.WaitCounted | linux-kernel-drivers/core/metaflux_core_main.c:967-1053 | A section adds a wait if and only if the creator of the queue begins one |
| CdevRights.RightsHaveOrigin | linux-kernel-drivers/core/metaflux_core_main.c:394-1300 | Every right held in a reachable state was asked for by its file and has been held without interruption since |
| CdevState.CreateUndone | linux-kernel-drivers/core/metaflux_core_main.c:791-860 | A creation whose result could not be delivered leaves the driver exactly as it was |
| CdevState.LeaseUndoneIff | linux-kernel-drivers/core/metaflux_core_main.c:889-963 | A lease whose result could not be delivered leaves the driver exactly as it was if and only if its file did not own the event descriptors before; if it did, the driver is as it was but for the event descriptors, which are gone |
| CdevState.CreatorOwnsEvents | linux-kernel-drivers/core/metaflux_core_main.c:763-887 | Opening, negotiating and creating the queue from the initial driver gives a file that owns the event descriptors |
| CdevState.FailedLeaseDropsEvents | linux-kernel-drivers/core/metaflux_core_main.c:889-963 | When that file takes the lease and the result cannot be delivered, its event descriptors are gone |
| CdevState.AllocateUndone | linux-kernel-drivers/core/metaflux_core_main.c:394-461 | An allocation whose result could not be delivered leaves the driver exactly as it was |
| CdevState.UnloadFreesAll | linux-kernel-drivers/core/metaflux_core_main.c:1391-1430 | After unloading the queue is held by waits in flight only, the payload by nobody, and what is not held is freed |
| CdevState.ReleaseForgets | linux-kernel-drivers/core/metaflux_core_main.c:1246-1300 | A released file owns nothing any more |
| CdevDriver.CdevCore.constructor | linux-kernel-drivers/core/metaflux_core_main.c:1335-1389 | The driver starts with one root reference on the queue, none on the payload, and counts equal to holders |
| CdevDriver.CdevCore.QueueCreate | linux-kernel-drivers/core/metaflux_core_main.c:791-840 | Keeps both counts equal to their holders; it succeeds if and only if the file is negotiated and has no queue, the device is online, nobody else owns the queue and nobody the event descriptors; then the file owns them, and undoing it gives back the state before |
| CdevDriver.CdevCore.QueueCreateFailed | linux-kernel-drivers/core/metaflux_core_main.c:842-860 | Keeps both counts equal to their holders; the file owns neither queue nor event descriptors afterwards |
| CdevDriver.CdevCore.WorkerLease | linux-kernel-drivers/core/metaflux_core_main.c:889-942 | Keeps both counts equal to their holders; it succeeds if and only if the request is not stale, the file is a control file without a lease, the device is online and nobody else holds the lease or the event descriptors; each refusal has its exact condition, and undoing a success gives back the state before if and only if the file did not own the event descriptors |
| CdevDriver.CdevCore.WorkerLeaseFailed | linux-kernel-drivers/core/metaflux_core_main.c:944-963 | Keeps both counts equal to their holders; the file owns neither lease nor event descriptors afterwards |
| CdevDriver.CdevCore.MapQueuePages | linux-kernel-drivers/core/metaflux_core_main.c:1173-1195 | Keeps both counts equal to their holders; it succeeds if and only if the size is right, the remap works, the file created the queue or holds the lease, and the queue is online and mapped; then exactly one mapping is added, and otherwise nothing changes |
| CdevDriver.CdevCore.MapPayloadPages | linux-kernel-drivers/core/metaflux_core_main.c:1149-1171 | Keeps both counts equal to their holders; it succeeds if and only if the size is right, the remap works, the payload is online and mapped, and the file owns it or is a control file with the lease; then exactly one mapping is added, and otherwise nothing changes |
| CdevDriver.CdevCore.MemoryAllocate | linux-kernel-drivers/core/metaflux_core_main.c:394-433 | Keeps both counts equal to their holders; a success finds the payload unheld, leaves it with three holders, and undoing it gives back the state before; it succeeds exactly when it changes something, and each refusal, a stale generation included, has its exact condition |
| CdevDriver.CdevCore.MemoryAllocateReturns | linux-kernel-drivers/core/metaflux_core_main.c:435-461 | Keeps both counts equal to their holders; the operation reference is gone afterwards |
| CdevDriver.CdevCore.ReleaseFile | linux-kernel-drivers/core/metaflux_core_main.c:1246-1300 | Keeps both counts equal to their holders; the file owns nothing afterwards |
| CdevDriver.CdevCore.Unload | linux-kernel-drivers/core/metaflux_core_main.c:1391-1430 | Keeps both counts equal to their holders; only waits in flight hold the queue afterwards, nobody holds the payload, and what is not held is freed |
| CycleFinder.FindCycle | tools/check-agent-state.py:155-181 | Terminates on every finite graph, returns None if and only if no cycle is reachable from any key, and otherwise a list whose consecutive nodes are edges and whose ends coincide |
| CycleFinder.Search.Visit | tools/check-agent-state.py:160-175 | A visit either returns such a cycle or finishes the node and everything it reaches, leaving stack and visiting set as they were |
| CycleFinder.FinishedHasNoCycle | tools/check-agent-state.py:172-175 | No cycle starts at a finished node |

## Left out

- RegistrySafety.StepKeepsSystem: the registry is a step machine over values, not a class with loops, because its promises are about interleavings of its atomic accesses; the CAS and retry loops are unrolled into program points.
- RegistryTheorems.ValidationLinearizes: memory is sequentially consistent; acquire/release orderings and fences are not modelled.
- RegistryLoss.LostFinalIffUnthreatened: that a threatened fence can be overwritten is stated for latches at least 68 below their 64-bit end; nearer to it a publisher may give up for lack of room. That an unthreatened fence stays LOST has no such condition.
- RegistryRows.ReturnedRowIsPublished: publish_telemetry's checks of the rows it is given are not modelled, so a payload is any list of rows; the end of the snapshot sequence is not modelled.
- The registry's recovery-extension paths, fault injection points, mapping layout and attach checks; the copy of the identity in the device admission record, which no reader consults.
- The view identity, process revision and gate generation words of the control snapshot, which nothing changes after initialisation or nothing checks.
- RecoveryProgress.NeverAgainIffEnded: that an open view which has not ended allocates or publishes again is stated while tags, generations and numbers are left for one more range and one more publication; that an ended one never does has no such condition.
- LifecycleCoordinator.Coordinator.Apply: callbacks do not re-enter the coordinator, the mutex and the move constructor are not modelled, and the reply's snapshot is the authority itself.
- Coordinator::unregister_mirror, mirror_count, tombstone_count and generation_consumed: counters and a removal from the mirror list that no protocol property depends on.
- The view-gate exploration of check-lifecycle-model.py: its closing step sets a generation its own assertion rejects; the recovery model is the real machine.
- KernelIr.VerifyKernel: diagnostics carry code and location, not message texts.
- KernelSemantics.AcceptedKernelIsSafe: values are arbitrary within their kind; arithmetic results, memory contents and races on shared memory are not modelled.
- CacheKey.KeyIdentity: SHA-256 is an arbitrary function; the statement is about pairs without a collision.
- CacheKey.SortFeatures: sorting in place and erasing repetitions is one insertion into an ascending list per feature.
- ArtifactStore.EvictOne: sorting the candidate vector is an insertion sort returning a new sequence; aliasing of the vector is not modelled.
- ArtifactCache.Cache.Reserve: directory scans, temporary directories, flock and fsync are abstracted to the store, lock ownership and success or failure; waiting for a busy key lock with a deadline is a refusal. An entry whose metadata do not match, which the source removes, or reports as a metadata mismatch while it is pinned, is not modelled: entries of the store are valid.
- ArtifactCache.Cache.Publish: whether an entry already in place is the same artifact is an input; the comparison of digests is not modelled.
- The administrator tier, artifact validation and digests of the persistent cache, and its reservation record text.
- CdevState.CountsAreHolders: eventfd contexts, registered user memory, DMA mappings and ring contents are not modelled; a file is not released during its own ioctl and the module is not unloaded while a file is open, as the kernel guarantees.
- lifecycle_dispatch.cpp, lifecycle_normalizer.cpp, config_model.c, mf_cdev_generation.h and reference.cpp: single-call translations and comparisons without state of their own.
- CdevDriver.CdevCore.QueueCreate: opening, negotiating, waiting, polling and mapping callbacks are steps of the counting results only, not methods of the object.
- Packaging, the compiler worker process, PCI and vroot drivers, and the server.
