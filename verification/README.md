# Verified model of the process-lifecycle sidecar

Dafny models and proofs for the parts of the sidecar whose correctness spans many steps:

1. **The fenced process-lifecycle protocol.** Host controllers share one durable record per
   workload. Each holds a fencing token and drives `reconcile_once` or freeze recovery: compare-and-set
   writes interleaved with freeze, thaw, checkpoint and restore effects. `LifecycleControllers` is one call as
   an automaton over its external calls; `LifecycleAgents` is the imperative code, proved to make exactly the
   automaton's calls for every outside world; `LifecycleSystems` interleaves any number of calls with crashes
   between any two external calls, failed calls that may or may not have taken effect, kernel requests that
   settle late, and an arbitrary placement writer. `LifecycleTraces` and `LifecycleOutcomes` say
   in which order a call acts and what it ends with; `LifecycleGuarantees`, `KernelAgreements` and `AgreementLimits`
   hold the whole-run results.
2. **The file-backed record store.** `RecordStores` is lock, re-read, temporary file, rename or link, re-read
   and unlock as single steps of any number of callers, beside loads that take no lock, with faults, crashes and
   sweeps by other processes anywhere; `StoreRefinements` proves that it refines an atomic compare-and-set register
   with loads; `StoreJoins` proves that this register is the store the lifecycle system runs over; `FileStores` is
   the imperative code over the same steps; `FileNames` covers the names on disk.
3. **The runtime-update controller.** `RuntimeValues` and `RuntimeUpdates`: allowlisted overrides, patches, and
   a replica that follows an authoritative log through lost, duplicated and reordered deliveries.
4. **The dual-stream receiver.** `Receivers`: loops over arbitrarily chunked readers, and the inverse of framing.
5. **The host authority and two text formats.** `HostSnapshots` (snapshot uniqueness and the pinned identity),
   `ProcStats` (start time from `/proc/<pid>/stat`), `LabelEscapes` (Prometheus text format 0.0.4 labels).

`dafny verify dfyconfig.toml` checks everything.

## How the model reads the source

- Strings that the source measures or compares by bytes are their UTF-8 bytes, one `char` per byte. In
  `ProcStats`, `LabelEscapes` and the receiver's schema version a `char` is a Unicode scalar value.
- Integers are unbounded; `u64` is a subset type and the two saturating increments are explicit.
- The persisted and the policy-side suspend strategy are one type.
- Every external call answers by an arbitrary function of the calls made so far, so each method is proved for
  every outside world. A call cut short by a crash is one whose reply is `Failed`.
- The freezer has one state per runtime incarnation and starts thawed. A request can be pending: a pending
  freeze still samples as thawed, a pending thaw still samples as frozen.
- A *serial* run is one in which a lease lets a call start only when no other is in progress.

## Where agreement between record and kernel ends

Only the record is fenced, so agreement with the kernel depends on the steps taken. A step is *guarded*
(`KernelAgreements.Guarded`) unless it is one of these:

- a freeze or thaw by a controller whose record was superseded within its runtime, except where it is harmless: a
  freeze under `freezing`, or under `thawing` while nobody is on the way to `running`; a thaw under `thawing`, or a
  settled one under `freezing` while nobody is about to publish `frozen`;
- a *blind sample*: recovery finds `thawing`, samples "not frozen" and so skips its thaw, while a freeze is pending;
- an outside write within the same runtime of a state that the freezer belies.

A record whose revision is saturated can no longer be followed up, and the exact guard allows for that too.

`AgreementLimits.AgreementIffGuarded` is exact over every run: agreement holds, now and along every guarded
continuation, if and only if every step was guarded. Under the lease only the blind sample is left
(`AgreementLimits.SerialAgreementIffSighted`). Both unguarded kinds of call happen:
`AgreementLimits.StaleControllerFreezesRunning` without the lease, `AgreementLimits.PendingFreezeSurvives` with it.

The documentation of `authorizes_controller` lets a host perform an effect only on a record written under its own
current fence. Recovery of a `thawing` record does not meet it: `LifecycleTraces.UnauthorisedThaw` is the trace, and
`LifecycleTraces.EffectsAreAuthorised` shows that this is the only exception.

## Model

| member | source | states |
|---|---|---|
| `LifecycleRecords.ValidIff` | src/process_lifecycle_record.rs:94-179 | a record is valid exactly when its identity is complete and its state decides its strategy and whether it carries a well-formed checkpoint |
| `LifecycleRecords.IdentityIsValidIff` | src/process_lifecycle_record.rs:199-205 | an identity is one to 96 letters, digits, dashes, underscores, dots and colons |
| `LifecycleRecords.CheckpointIsValidIff` | src/process_lifecycle_record.rs:125-138 | a checkpoint is accepted exactly when reference and format are present, bounded and free of control characters and the digest is a lower-case SHA-256 |
| `LifecycleRecords.AcceptsIffPrecedes` | src/process_lifecycle_record.rs:227-276 | a replacement is accepted exactly when both records are valid, identity, fence, revision, placement and runtime are ordered, and a new runtime starts in `running` with no checkpoint |
| `LifecycleRecords.HistoryIsOrdered` | src/process_lifecycle_record.rs:227-276 | that order holds between any two records of any accepted history, however far apart |
| `LifecycleRecords.EpochsFollowFences` | src/process_lifecycle_record.rs:227-276 | over every history revisions strictly increase, an equal fence means an equal runtime, an equal runtime an equal placement, an equal placement an equal node |
| `LifecycleRecords.LaterRuntimeStartsRunning` | src/process_lifecycle_record.rs:264-276 | every later runtime begins in `running` without a checkpoint under a larger fence, and its records are contiguous |
| `LifecyclePolicies.DecisionTable` | src/process_lifecycle.rs:133-332 | every decision, action and next state, from the state, the event and the queue, in-flight and idle fields; everything else is refused |
| `LifecycleAgents.ReconcileOnce` | src/process_lifecycle_agent.rs:119-190 | for every behaviour of store, host, product and effects, the calls made and the outcome are those of the automaton |
| `LifecycleOutcomes.ReconcileCompletes` | src/process_lifecycle_agent.rs:119-408 | a reconcile in which nothing fails: its whole trace, every published record and its outcome, from the loaded state, the activity fields and the product's answer: wakes on demand, suspends when idle throughout, cancels on returning demand, recovers a quiesce, changes nothing otherwise, leaves the four transitional states to recovery |
| `LifecycleOutcomes.OutcomeMeans` | src/process_lifecycle_agent.rs:87-408 | for every trace that ends, whatever failed: each outcome, success or error, happens if and only if the last exchange and the loaded record are of its kind |
| `LifecycleOutcomes.AuthorisedIff` | src/process_lifecycle_agent.rs:419-448 | a call goes on exactly when node, placement, runtime and strategy are the record's own and its fence is not older |
| `LifecycleOutcomes.WakesExactlyOnDemand` | src/process_lifecycle_agent.rs:158-190 | a reconcile goes on to publish a thaw or restore intent if and only if it observed a queue or work in flight over an authorised frozen or hibernated record with room for it |
| `LifecycleOutcomes.SuspendsOnlyWhenIdle` | src/process_lifecycle_agent.rs:158-298 | every freeze or checkpoint call follows an observation of no queue, no work in flight and the whole grace period, and after the drain a second one of no queue and no work in flight |
| `LifecycleAgents.RecoverQuiesce` | src/process_lifecycle_agent.rs:192-213 | reopens the product and republishes `running`, following the automaton to its outcome on success and on every failure |
| `LifecycleAgents.SuspendFromRunning` | src/process_lifecycle_agent.rs:215-252 | publishes `quiescing`, asks the product, and follows the automaton through drain, returned demand and failure |
| `LifecycleAgents.SuspendDrained` | src/process_lifecycle_agent.rs:236-307 | asks the host again after the drain and takes the automaton's branch |
| `LifecycleAgents.FreezeQuiesced` | src/process_lifecycle_agent.rs:261-276 | intent, freeze and `frozen` in the automaton's order, with each failure's outcome |
| `LifecycleAgents.HibernateQuiesced` | src/process_lifecycle_agent.rs:277-298 | intent, checkpoint and `hibernated` in the automaton's order, with the returned checkpoint |
| `LifecycleAgents.CancelSuspendForDemand` | src/process_lifecycle_agent.rs:309-330 | follows the automaton through reopening and republishing `running` |
| `LifecycleAgents.ResumeFrozen` | src/process_lifecycle_agent.rs:332-366 | follows the automaton through `thawing`, thaw, reopen, admission and `running` |
| `LifecycleAgents.RestoreHibernated` | src/process_lifecycle_agent.rs:368-408 | follows the automaton through `restoring`, restore of the record's own checkpoint, reopen, admission and `running` |
| `LifecycleAgents.PersistRecord` | src/process_lifecycle_agent.rs:410-417 | succeeds exactly into the automaton's next point after a durable publication, and otherwise ends with its outcome |
| `LifecycleAgents.RecoverFreezeTransition` | src/adapters/state_machine/process_lifecycle_recovery.rs:57-112 | recovery makes the automaton's calls and ends with its outcome for every outside world |
| `LifecycleOutcomes.RecoveryCompletes` | src/adapters/state_machine/process_lifecycle_recovery.rs:57-202 | a recovery in which nothing fails: its whole trace, every published record and its outcome, from the loaded state and the kernel sample |
| `LifecycleAgents.RecoverFreezing` | src/adapters/state_machine/process_lifecycle_recovery.rs:114-151 | finishes or cancels a freeze as the sample decides, following the automaton |
| `LifecycleAgents.RecoverThawing` | src/adapters/state_machine/process_lifecycle_recovery.rs:153-173 | finishes a thaw as the sample decides, following the automaton |
| `LifecycleAgents.FinishRunning` | src/adapters/state_machine/process_lifecycle_recovery.rs:175-202 | reopen, admission, then `running`, following the automaton |
| `LifecycleControllers.FollowIsWellFormed` | src/process_lifecycle_agent.rs:119-467 | wherever any trace stands, the loaded record authorises the call, its state fits the point, and a proposal about to be written is an accepted update |
| `LifecycleTraces.SuspendingEffectOrder` | src/process_lifecycle_agent.rs:158-298 | every freeze or checkpoint call is preceded by exactly six exchanges: load, idle-grace observation, `quiescing`, drained, demand-free observation, intent |
| `LifecycleTraces.ResumeOrder` | src/process_lifecycle_agent.rs:332-408 | every publication of `running` from `thawing` or `restoring` directly follows thaw, restore or a thawed sample, then a successful reopen, then a successful admission |
| `LifecycleTraces.EffectsAreAuthorised` | src/process_lifecycle_record.rs:181-197 | every freeze, thaw, checkpoint and restore call is made on a record that authorises its controller under its exact fence, if and only if it is not a recovery's thaw of a record found in `thawing` under an older fence |
| `LifecycleTraces.UnauthorisedThaw` | src/adapters/state_machine/process_lifecycle_recovery.rs:153-173 | the exception happens for every valid `thawing` record under an older fence: load, a frozen sample and the thaw |
| `LifecycleTraces.ReplacementIsPolicyStep` | src/process_lifecycle.rs:133-332 | every replacement asked for is the step that the policy decides on the evidence of the exchanges before it, except exactly: cancelling a `quiescing` record found on load, cancelling after the product took its drain back, and recovery's `freezing` to `thawing` |
| `LifecycleTraces.InvalidTransitionIsUnreachable` | src/process_lifecycle_agent.rs:158-190 | no trace ends in `InvalidTransition` |
| `LifecycleTraces.ProposalIsAcceptedIff` | src/process_lifecycle_agent.rs:450-467 | a built record passes update validation exactly when the revision is not saturated and a returned checkpoint is well formed |
| `LifecycleTraces.UninterruptedRecoveryCompletes` | src/adapters/state_machine/process_lifecycle_recovery.rs:57-202 | a recovery whose calls succeed on a populated workload can only end recovered to `frozen` or `running` |
| `LifecycleTraces.CallsTerminate` | src/process_lifecycle_agent.rs:119-408 | every call ends after at most eleven external calls |
| `LifecycleSystems.RunKeepsInv` | src/process_lifecycle_agent.rs:410-467 | under any interleaving the history stays accepted, controllers stand on records that were durable, and pending and made one-shot effects have pairwise distinct intents |
| `LifecycleGuarantees.DurableRecordAdvances` | src/process_lifecycle_agent.rs:410-417 | between any two moments of any run the durable record stays or is superseded in the order above |
| `LifecycleGuarantees.StaleWriterIsExcluded` | src/process_lifecycle_agent.rs:419-437 | once a larger fence has been durable, no replacement under a smaller fence ever succeeds or takes effect, wherever its controller stands |
| `LifecycleGuarantees.EffectsHappenAtMostOnce` | src/process_lifecycle_agent.rs:261-297 | each published intent leads to at most one freeze, checkpoint or restore call in the whole run |
| `LifecycleGuarantees.SuspensionFollowsProtocol` | src/process_lifecycle_agent.rs:215-298 | in every run, whichever controller freezes or checkpoints has just followed the six-exchange protocol on a record that was durable |
| `LifecycleGuarantees.ResumptionFollowsAdmission` | src/adapters/state_machine/process_lifecycle_recovery.rs:175-202 | in every run, whichever controller publishes `running` from a suspended state was reopened and admitted first |
| `LifecycleGuarantees.RunFollowsEdges` | src/process_lifecycle_agent.rs:192-408 | in every run each publication is one of eleven protocol edges, with nothing else changed, or a new runtime |
| `LifecycleGuarantees.EdgeIsPolicyPath` | src/process_lifecycle.rs:133-332 | the edges are exactly the policy's own changes of state and `freezing` to `thawing`, which the policy takes in two steps and never in one |
| `LifecycleGuarantees.RunFollowsPolicy` | src/process_lifecycle_agent.rs:158-306 | in every run, each replacement asked for is what the policy decides on its controller's own evidence, with the three exceptions |
| `LifecycleGuarantees.TransitionsSettle` | src/adapters/state_machine/process_lifecycle_recovery.rs:57-202 | however often calls are interrupted, `freezing` and `thawing` reach `frozen` or `running` within two and one publications |
| `LifecycleGuarantees.RunTracesCheckpoints` | src/process_lifecycle_agent.rs:277-298 | every hibernated record's checkpoint was returned by the checkpoint call of the intent directly before it |
| `LifecycleGuarantees.RestoreUsesItsCheckpoint` | src/process_lifecycle_agent.rs:368-408 | a restore gets exactly the checkpoint that its own `checkpointing` intent produced |
| `LifecycleGuarantees.HibernationIsRestoredOnce` | src/process_lifecycle_agent.rs:382-407 | from any start and under any writer, every restore is made for a record published directly on top of a hibernated one, with its checkpoint, and no hibernated record is restored twice |
| `KernelAgreements.SoundStep` | src/process_lifecycle_agent.rs:192-366 | from a world in which record, freezer and the controllers on the record fit, a step of any kind leads to such a world if and only if it is guarded |
| `KernelAgreements.GuardedRunAgrees` | src/adapters/state_machine/process_lifecycle_recovery.rs:57-202 | under any interleaving, with pending requests, a frozen or freezing cgroup means `freezing`, `frozen` or `thawing` is durable, and `frozen` is true of the kernel, at every moment of a guarded run |
| `KernelAgreements.FencedRunAgrees` | src/process_lifecycle_agent.rs:268-269 | without any lease, the same holds when freezes and thaws are only made from the durable record or on a replaced runtime and no sample is blind |
| `KernelAgreements.SerialRunKeepsInv` | src/process_lifecycle_agent.rs:119-190 | in every serial run at most one call is in progress and it stands on the durable record unless its runtime was replaced |
| `KernelAgreements.SerialRunIsGuardedIff` | src/adapters/state_machine/process_lifecycle_recovery.rs:168-172 | a serial run is guarded if and only if no sample in it is blind |
| `KernelAgreements.RecordAndKernelAgree` | src/adapters/state_machine/process_lifecycle_recovery.rs:139-173 | in every serial run in which no recovery stops between making `thawing` durable and its completed thaw while a freeze is pending, no sample is blind and record and kernel agree at every moment |
| `KernelAgreements.SettledFreezesAgree` | src/process_lifecycle_agent.rs:192-366 | when a freeze has taken effect or not by the end of its call, agreement needs no hypothesis but the lease |
| `AgreementLimits.UnsoundLosesAgreement` | src/adapters/state_machine/process_lifecycle_recovery.rs:57-202 | from every reachable world that is not sound, guarded steps alone lead to a disagreement |
| `AgreementLimits.AgreementIffGuarded` | src/process_lifecycle_agent.rs:192-366 | for every run, no guarded continuation of any prefix ever disagrees if and only if every step is guarded |
| `AgreementLimits.SerialAgreementIffSighted` | src/adapters/state_machine/process_lifecycle_recovery.rs:153-173 | for every serial run, the same if and only if no sample is blind |
| `AgreementLimits.StrayFreezeDisagrees` | src/process_lifecycle_agent.rs:268-269 | in every reachable world, a freeze that succeeds while its runtime's record is neither `freezing`, `frozen` nor `thawing` disagrees at once |
| `AgreementLimits.HazardLosesAgreement` | src/adapters/state_machine/process_lifecycle_recovery.rs:139-173 | every serial run that ends in a recovery stopping over a pending freeze has a serial continuation that publishes `running` with the freeze still pending, unless the revision is saturated |
| `AgreementLimits.PendingFreezeSurvives` | src/adapters/state_machine/process_lifecycle_recovery.rs:144-172 | from any fresh record there is a serial run that publishes `running` with a freeze pending, and so disagrees |
| `AgreementLimits.StaleControllerFreezesRunning` | src/process_lifecycle_agent.rs:268-269 | without the lease there is, from any fresh record, a run in which a stale controller freezes a `running` workload, and so disagrees |
| `StoreRefinements.CanonicalFilesStayComplete` | src/adapters/process_lifecycle_file_store.rs:77-181 | at every moment of every run each canonical file holds one complete valid record of its workload |
| `StoreRefinements.LoadRecordIff` | src/adapters/process_lifecycle_file_store.rs:115-147 | a load finds exactly a complete, valid record of the named workload within 65536 bytes, and reports a missing file as missing |
| `StoreRefinements.StoreRefinesRegister` | src/adapters/process_lifecycle_file_store.rs:77-181 | every event of every run, loads included, is one event of an atomic compare-and-set register, or changes nothing in it |
| `StoreRefinements.LoadRefines` | src/adapters/process_lifecycle_file_store.rs:115-147 | a load that looks and then reads without a lock answers what the register holds at the moment it answers, or an I/O error |
| `StoreRefinements.CallIsDecidedOnce` | src/adapters/process_lifecycle_file_store.rs:149-181 | a call acts on the register at one moment inside its span, and never again |
| `StoreRefinements.AnswersAreLinearised` | src/adapters/process_lifecycle_file_store.rs:149-181 | a success means that the expected record was replaced at that moment, a refusal that something else was stored there, and only other errors leave it open |
| `StoreRefinements.StoredRecordNeverRegresses` | src/adapters/process_lifecycle_file_store.rs:115-181 | no crash, fault or sweep ever removes a stored record or takes it back |
| `StoreRefinements.ConfirmationAgrees` | src/adapters/process_lifecycle_file_store.rs:175-179 | the re-read under the lock never disagrees with what was published |
| `StoreJoins.SystemLoadsAreRegisterLoads` | src/adapters/process_lifecycle_file_store.rs:115-147 | what the lifecycle system lets a load do is exactly what the register allows |
| `StoreJoins.SystemReplacesAreRegisterReplaces` | src/adapters/process_lifecycle_file_store.rs:149-181 | what the lifecycle system lets a replacement do is exactly what the register allows: its effect, its answer and being cut short |
| `StoreJoins.StoredRecordsAreAHistory` | src/adapters/process_lifecycle_file_store.rs:77-181 | over any stretch of any run the records in a workload's canonical file form an accepted history |
| `FileStores.SoloCall` | src/adapters/process_lifecycle_file_store.rs:86-181 | an undisturbed call takes effect completely or not at all, at every prefix of its steps |
| `FileStores.SoloAnswer` | src/adapters/process_lifecycle_file_store.rs:86-181 | an undisturbed call in which no operation fails answers `Ok` exactly when it is accepted, the register matches, the record fits and its temporary name is new, otherwise the name of what stood against it, and leaves no temporary file |
| `FileStores.ValidateOpIff` | src/adapters/process_lifecycle_file_store.rs:149-157 | a replacement is let through exactly when it is an accepted update, an initialisation exactly when its record is valid |
| `FileStores.FileStore.ReplaceRecord` | src/adapters/process_lifecycle_file_store.rs:149-181 | success replaces exactly the expected record, an error leaves the old or the new one, `UnexpectedCurrent` leaves the old; without faults the answer is the one that is due; the file operations are the steps of the refinement |
| `FileStores.FileStore.InitializeRecord` | src/adapters/process_lifecycle_file_store.rs:86-113 | success creates the first record and nothing else, `AlreadyInitialized` changes nothing; without faults the answer is the one that is due |
| `FileStores.FileStore.WriteTemporary` | src/adapters/process_lifecycle_file_store.rs:225-242 | fills a fresh temporary file in chunks of any size; every intermediate directory is a step of the refinement |
| `FileStores.FileStore.LoadCanonical` | src/adapters/process_lifecycle_file_store.rs:115-147 | looks, then reads, and answers what the register holds, or an I/O error only if an operation failed |
| `FileStores.FileStore.RecoverTemporaryFiles` | src/adapters/process_lifecycle_file_store.rs:314-331 | removes only temporary files, keeps every record and lock file, and succeeds exactly when no temporary file is left, which without faults is always |
| `FileNames.WorkloadFileKey` | src/adapters/process_lifecycle_file_store.rs:270-281 | a key exists exactly for a valid workload id and is twice as long, in lower-case hexadecimal |
| `FileNames.HexKeyRoundTrip` | src/adapters/process_lifecycle_file_store.rs:270-281 | the hexadecimal key decodes back to the workload id |
| `FileNames.NamesNeverCollide` | src/adapters/process_lifecycle_file_store.rs:183-242 | the names on disk of the directory's record, lock and temporary files are equal only for the same kind, workload, revision, process and nonce |
| `FileNames.OnlyTemporariesAreSwept` | src/adapters/process_lifecycle_file_store.rs:314-331 | the sweep's name test accepts exactly the temporary names among the store's names |
| `RuntimeValues.ValidatePatchIff` | src/runtime_values.rs:126-150 | a patch is accepted exactly when it is bounded, names each key once and every update is allowed |
| `RuntimeValues.PatchMeansItsUpdates` | src/runtime_values.rs:206-221 | for every accepted patch the one-shot map equals applying the updates one at a time in any order |
| `RuntimeValues.AllowKeysIff` | src/runtime_values.rs:57-97 | the allowlist is accepted exactly when it is bounded, distinct and well named |
| `RuntimeValues.KeyIsValidIff` | src/runtime_values.rs:242-256 | a mutable key is an upper-case identifier of at most 128 bytes that is not sensitive |
| `RuntimeValues.SensitiveComponentIsRefused` | src/runtime_values.rs:258-280 | a key with a sensitive word anywhere between underscores is refused |
| `RuntimeValues.SensitiveNamesAreRefused` | src/runtime_values.rs:258-280 | connection strings and every name ending in `_KEY` or `_DSN` are refused |
| `RuntimeValues.Split` | src/runtime_values.rs:258-280 | the parts joined by the separator are the key, and none contains the separator |
| `RuntimeValues.BaselineIff` | src/runtime_values.rs:79-97 | the baseline is accepted exactly when it is bounded, names each key once and every entry is allowed |
| `RuntimeValues.NewHandle` | src/runtime_values.rs:57-97 | succeeds exactly on a valid allowlist and baseline; the handle then has exactly the listed keys, exactly the given baseline, and no overrides |
| `RuntimeValues.Handle.Get` | src/runtime_values.rs:107-116 | a lookup agrees with the layered snapshot on every key |
| `RuntimeValues.Handle.Snapshot` | src/runtime_values.rs:118-124 | the snapshot has every baseline and override key, overrides winning |
| `RuntimeValues.Handle.ApplyPatch` | src/runtime_values.rs:152-167 | a rejected patch changes nothing, an accepted one has the patch's meaning, and the allowlist bound is kept |
| `RuntimeValues.Handle.ReplaceOverrides` | src/runtime_values.rs:169-187 | replaces all overrides or none, exactly when every entry is allowed and the map is bounded |
| `RuntimeUpdates.Controller.ApplySnapshot` | src/runtime_updates.rs:236-263 | new state and outcome are the reducer's, and the configuration is kept |
| `RuntimeUpdates.SnapshotOutcome` | src/runtime_updates.rs:236-263 | a snapshot is applied, and then replaces everything and clears `stale`, exactly when it is ours, well formed, allowed and not older than the controller's revision; an older one is ignored; each error has its exact condition |
| `RuntimeUpdates.Controller.ApplyBatch` | src/runtime_updates.rs:265-290 | new state and outcome are the reducer's, and the configuration is kept |
| `RuntimeUpdates.BatchOutcome` | src/runtime_updates.rs:128-157 | each outcome of an event, duplicate, reconcile, applied or error, from its shape, the revisions, the stale flag, the operation and the allowlist |
| `RuntimeUpdates.Controller.ApplyValues` | src/runtime_updates.rs:292-315 | upsert and delete patches and whole-map replacements have the event's plain map meaning, all or nothing; the `resync` arm is not reachable |
| `RuntimeUpdates.ReplicaMirrorsLog` | src/runtime_updates.rs:128-315 | fed any schedule of lost, duplicated and reordered truthful deliveries, the overrides equal the log at the controller's revision, backend keys are their keys, and lookup finds that value or else the baseline |
| `RuntimeUpdates.UnbrokenSequenceCatchesUp` | src/runtime_updates.rs:128-157 | from any state that is not stale, an unbroken allowed sequence is applied in full: last revision, overrides the events' meaning in order, backend keys still their keys |
| `RuntimeUpdates.ReplicaStaysBounded` | src/runtime_updates.rs:236-388 | in every run, local patches included, override and backend keys stay in the allowlist, so at most 64, and the revision at most 2^53-1 |
| `RuntimeUpdates.DeliveryIsAtomic` | src/runtime_updates.rs:236-290 | an error changes nothing, the revision never falls, only an applied snapshot clears `stale` |
| `Distinctness.FullCardinalityIsDistinct` | src/runtime_updates.rs:357-388 | a list has as many distinct members as entries exactly when it repeats nothing |
| `Receivers.ReadBoundedLine` | src/receiver.rs:94-122 | for every chunking the line or its error depends only on the bytes; exactly the line is consumed on success, everything on a truncated line, and never more than the bound |
| `Receivers.ReceiveMetadata` | src/receiver.rs:142-165 | the admitted metadata depends only on the bytes, and the data stream is not touched |
| `Receivers.MetadataRefusedIff` | src/receiver.rs:124-165 | which metadata is refused and with which error, from the decoded version and length |
| `Receivers.FirstLineTable` | src/receiver.rs:94-122 | a line is read when it fits with its newline, and is otherwise too large or cut short |
| `Receivers.StripsLineBreaks` | src/receiver.rs:115-118 | every trailing newline and carriage return is taken off, and nothing else |
| `Receivers.ReceiveData` | src/receiver.rs:171-196 | exactly the declared bytes for every chunking, or how many were missing |
| `Receivers.ReceiveOne` | src/receiver.rs:198-208 | the first frame of the two streams, with both readers left at the next one |
| `Receivers.ReceiveAll` | src/receiver.rs:210-225 | the sink gets the frames the bytes carry, in order and with their count; I/O errors and refusals only cut them short |
| `Receivers.FramingRoundTrip` | src/receiver.rs:94-225 | the encoded lines and concatenated data of any sendable frames carry exactly those frames, whatever trails the data |
| `Receivers.ReceiveFramed` | src/receiver.rs:210-225 | receiving inverts framing for every chunking and leaves the trailing bytes unread |
| `HostSnapshots.SnapshotIsAcceptedIff` | src/process_lifecycle_runtime/host_control.rs:193-227 | the cardinality checks accept exactly the snapshots whose entries are valid and pairwise apart in id, process and cgroup |
| `HostSnapshots.WorkloadIsValidIff` | src/process_lifecycle_runtime/host_control.rs:229-298 | an entry is accepted exactly when each field is in range, its node is ours and its cgroup is a proper descendant of the root without traversal; a foreign node has its own error |
| `HostSnapshots.SelectionIsTheSoleEntry` | src/adapters/process_lifecycle_host_control.rs:143-174 | on an accepted snapshot the selected entry is the single one equal to the pinned tuple, and selection fails exactly when there is none |
| `HostSnapshots.WorkloadControl.RefreshIdentity` | src/adapters/process_lifecycle_host_control.rs:114-117 | succeeds exactly when the sample shows the pinned tuple, with that entry |
| `HostSnapshots.WorkloadControl.Observe` | src/adapters/process_lifecycle_host_control.rs:124-131 | succeeds exactly on a sample showing the pinned tuple; queue, in-flight and idle are each that sole entry's own |
| `HostSnapshots.WorkloadControl.VerifyReady` | src/adapters/process_lifecycle_host_control.rs:133-140 | succeeds exactly on a sample, a routable admission and a second sample; over everything the control does, every admission carries each pinned field and the fence |
| `HostSnapshots.Client.AdmitAfterWake` | src/process_lifecycle_runtime/host_control.rs:85-120 | a request is sent exactly for a valid workload, positive fence and bounded size; every refusal and every host answer has its own result |
| `HostSnapshots.OnlyRoutableAdmits` | src/process_lifecycle_runtime/host_control.rs:111-120 | only `ok routable` admits |
| `HostSnapshots.WithAuthority` | src/adapters/process_lifecycle_host_control.rs:77-92 | a control exists exactly with a positive fence and after a sample that shows its tuple |
| `ProcStats.StartTicksRoundTrip` | src/adapters/process_lifecycle_identity.rs:235-261 | field 22 of a stat line is recovered for every command name; zero, more than 64 bits and every other process id are refused |
| `LabelEscapes.EscapeIsOnePass` | src/apm.rs:317-322 | the three sequential replacements equal a one-pass escape |
| `LabelEscapes.LabelReadsBack` | src/apm.rs:317-322 | a reader of the quoted label gets exactly the value back, up to exactly its closing quote; no bare quote or newline is left |
| `LabelEscapes.EscapeIsInjective` | src/apm.rs:317-322 | distinct labels never render alike |

## Left out

- HTTP serving, probes, command line, start-up environment and configuration files: branch-by-branch checks that
  would only add easy members.
- The lease transport: only a held grant with its fence appears, and serial runs stand for its mutual exclusion.
- The scheduler that places workloads: an arbitrary writer that obeys update validation.
- cgroup files, CRIU, sockets, timeouts and process attestation beyond the stat line: calls with arbitrary answers.
- Durability of `fsync`: the directory never loses a completed operation; a failed sync is an error after the effect.
- Lock-file and temporary-entry file-type checks, directory permissions and clock failure: all count as I/O errors.
- The bytes of one open canonical file are read at once: files are only ever exchanged whole by rename or link.
- JSON: an uninterpreted decoder for the receiver and the host, an encoder with its inverse for the store.
- Text of error messages and the key carried by a rejected update; of `LifecycleRecordError` only the variant.
- Poisoned-lock errors of the runtime values and the update controller.
- Host responses: reading the socket and the one-line check are part of what an exchange answers.
- `PolicyError`, which refuses idle periods under 1000 ms: policies are given, and results hold for any period.
- LifecycleOutcomes.ReconcileCompletes: asks for room for three revisions, since a saturated revision makes the code
  refuse its own record; LifecycleOutcomes.RecoveryCompletes likewise, and LifecycleOutcomes.OutcomeMeans has no such bound.
- LifecycleTraces.UninterruptedRecoveryCompletes: asks for room for the one or two revisions recovery publishes,
  because a saturated revision makes the code refuse its own record.
- LifecycleGuarantees.RestoreUsesItsCheckpoint: about runs that start from a `running` record and whose outside
  writer only installs new runtimes, because any other writer may store a checkpoint of its own.
- LifecycleGuarantees.RunFollowsEdges: about runs whose outside writer only installs new runtimes, for the same reason.
- KernelAgreements.GuardedRunAgrees: about runs that start with untouched freezers and so not from a `frozen` record,
  which would disagree from the start; the same start is asked for wherever agreement is claimed.
- KernelAgreements.SettledFreezesAgree: about serial runs; KernelAgreements.GuardedRunAgrees covers interleaved ones.
- KernelAgreements.RecordAndKernelAgree: its hypotheses are sufficient only; the exact one is that of
  AgreementLimits.SerialAgreementIffSighted.
- FileStores.FileStore.InitializeRecord: as for the next line.
- FileStores.FileStore.ReplaceRecord: its direct contract is for a free lock, where the source would wait, and for
  no interference; the refinement covers contention and interference.
