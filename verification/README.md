# Verification of Connect|API's core protocols

Dafny models of the parts of the repository whose correctness depends on whole runs rather than on
single branches, with proofs about them. `dafny verify dfyconfig.toml` checks the project.

**Registry retention** (`ManifestGraph`, `RetentionTypes`, `RetentionPolicy`, `RetentionPlan`,
`DeletionOrder`, `RetentionBatch`): which manifests of a package are kept, the order in which the others
are deleted, and what an interrupted batch leaves behind.

**Diagnostic store** (`StoreTypes`, `StoreDisk`, `StoreProtocol`, `StoreInvariant`, `StoreSafety`,
`StoreMaintenance`, `DiagnosticStore`, `SegmentReader`, `Pagination`, `QueryScan`): a log-structured store.
Every write, rename and unlink is a step of its own, so a crash can fall between any two; the methods of
the store object keep a ghost trace that shows them to be sequences of such steps.

**Speech executor** (`FairScheduler`, `Residency`, `ResidencySafety`, `SpeechCoordinator`,
`InferenceSupervisor`, `DeliveryHandling`, `SourceCache`, `SpeechRegions`, `ChunkedTranscription`, `Wav`):
fair queueing, the hand-off of exclusive slots between coordinators, the fenced process supervisor, the
settling of deliveries, voice activity, the checkpointed chunk loop, and the WAV writer and reader.
Asynchronous code is modelled as the steps between awaits; everything outside answers as it likes.

**Client protocols** (`VaultBridge`, `VaultWorker`, `LiveState`): the bridge of two scripts without a start
order and a worker, and the last-writer-wins merge of live device updates.

Four properties turned out to hold only under a condition; each has its counterexample and the exact
condition, as an equivalence over all inputs or runs:

- a retained referrer can lose its subject to a deletion batch (`RetentionBatch.KeptReferrerExample`;
  exactly when: `RetentionBatch.SubjectsAreSafeIff`);
- a coordinator can give up its slot under a live model when a failed load is still stopping it, or start
  a model without a lease when a load waits for an unload across a connection loss (four runs in
  `ResidencySafety`, such as `HandOffCanStrandAModel`; exactly when: `ResidencySafety.GuardIsExact`);
- the vault relay drops keys that were fired in time once a notice has been refused
  (`VaultBridge.RefusalLosesKeys`; exactly when: `VaultBridge.NoCallbackIsLost`);
- a delayed update can set a reconciliation back (`LiveState.ReconciliationCanGoBack`; exactly when:
  `LiveState.ReconciliationGoesBackIff`).

## Model

| member | source | states |
|---|---|---|
| `RetentionPolicy.ValidatePolicy` | scripts/ghcr-retention.py:144-164 | accepts a policy exactly if it is sound (channels and 1.1.3 protected, no history deletion, base packages apart, pins managed) and keeps every canonical version and pin of the previous policy |
| `RetentionPolicy.CanonicalIsForever` | scripts/ghcr-retention.py:156-160 | over any history of accepted policies no canonical version is ever dropped and no pin ever changes |
| `RetentionPolicy.PinnedIsNeverOffered` | scripts/ghcr-retention.py:144-218 | a plan under an accepted policy never offers a manifest pinned by any earlier accepted policy, nor anything of a base package |
| `RetentionPlan.PlanPackage` | scripts/ghcr-retention.py:166-218 | the rows of a trusted inventory state the first ground for keeping each manifest and offer it exactly if no root and no individually kept manifest reaches it; an untrusted inventory keeps everything; the plan fails exactly if a root of a trusted inventory is not listed |
| `RetentionPlan.TrustedEdges` | scripts/ghcr-retention.py:169-195 | succeeds exactly on a trusted inventory, with its protection graph; otherwise the reason is the first check, in order, that fails |
| `RetentionPlan.DistrustHasOneReason` | scripts/ghcr-retention.py:169-195 | a reason for distrust exists only for an untrusted inventory, and there is never a second one |
| `RetentionPlan.CollectRoots` | scripts/ghcr-retention.py:175-188 | the roots are the pins, the carriers of protected tags and the newest release image |
| `RetentionPlan.ClassifyAlone` | scripts/ghcr-retention.py:201-210 | each first row follows the order of the grounds for keeping, and the kept names are exactly the preserved ones |
| `RetentionPlan.KeepReferenced` | scripts/ghcr-retention.py:216-217 | exactly the candidates among the retained manifests become preserved |
| `RetentionPlan.CanonicalTagsMatch` | scripts/ghcr-retention.py:184-185 | every canonical version is a tag of the manifest it is pinned to |
| `RetentionPlan.CloseOverRoots` | scripts/ghcr-retention.py:196-200 | the depth-first loop returns exactly the nodes reachable from the roots, or nothing if a root is not listed |
| `RetentionPlan.CloseOverRetained` | scripts/ghcr-retention.py:211-215 | the queue loop returns the least closed superset of the retained manifests |
| `RetentionPlan.CollectAliases` | scripts/ghcr-retention.py:176-183 | the alias table maps each tag to its only carrier, or the first manifest with an unreadable or a taken tag decides what is reported |
| `RetentionPlan.AddTags` | scripts/ghcr-retention.py:178-183 | enters the tags of one manifest, or reports that another manifest carries one of them |
| `RetentionPlan.FindNewestRelease` | scripts/ghcr-retention.py:187-188 | the first of the most recently created release images, unreadable dates counting as oldest |
| `RetentionPlan.BuildEdges` | scripts/ghcr-retention.py:189-195 | the edges are the children plus the reverse subject edges, or the first manifest with an unlisted reference decides whether a child or the subject is reported |
| `RetentionPlan.ClosuresCompose` | scripts/ghcr-retention.py:196-215 | closing the closure of the roots with further seeds equals closing all seeds at once |
| `ManifestGraph.ReachableIsLeastClosedSet` | scripts/ghcr-retention.py:196-215 | the reachable nodes lie in every closed set that contains the roots |
| `ManifestGraph.PredecessorsEverywhereMakeACycle` | scripts/ghcr-retention.py:124-133 | a nonempty finite set in which every node has a predecessor contains a cycle |
| `ManifestGraph.TopologicalOrderExcludesCycles` | scripts/ghcr-retention.py:112-134 | nodes that can be ordered with every reference pointing forwards contain no cycle |
| `DeletionOrder.KahnOrder` | scripts/ghcr-retention.py:124-133 | lists nodes in topological order without repeats, beginning with the free nodes in increasing order, and lists all of them exactly if the graph has no cycle |
| `DeletionOrder.CountIncoming` | scripts/ghcr-retention.py:124-126 | the counter of each node is the number of candidates that refer to it |
| `DeletionOrder.Release` | scripts/ghcr-retention.py:130-132 | lowers the counters of the referenced nodes and queues exactly those that become free, in increasing order |
| `DeletionOrder.OrderForDeletion` | scripts/ghcr-retention.py:112-134 | a permutation of the candidates in which each one precedes its candidate children and subject; refused exactly for an unlisted candidate or a reference cycle |
| `DeletionOrder.RoundKeepsInvariant` | scripts/ghcr-retention.py:128-132 | one round of the queue keeps the counters equal to the unemitted referrers and the queue equal to the free unemitted nodes |
| `RetentionBatch.PreservedSetIsClosed` | scripts/ghcr-retention.py:189-218 | for every inventory and policy the preserved manifests are closed under children and attached referrers |
| `RetentionBatch.PrefixNeverDangles` | scripts/ghcr-retention.py:112-134 | after any prefix of the deletion order no listed manifest has a deleted child and no undeleted candidate has a deleted subject |
| `RetentionBatch.SubjectsAreSafeIff` | scripts/ghcr-retention.py:189-218 | no prefix of the order deletes the subject of a listed manifest, if and only if the inventory, under this policy and clock, has no kept manifest attached to one that nothing keeps |
| `RetentionBatch.KeptReferrerExample` | scripts/ghcr-retention.py:112-218 | an inventory and an acceptable policy for which a kept referrer loses its subject |
| `RetentionBatch.PlanBatch` | scripts/ghcr-retention.py:112-218 | plan, candidates and order together meet the conditions of the two theorems above |
| `StoreDisk.AddReplacement` | src/diagnostics/diagnostic-store.ts:365-370 | renaming a replacement into place dooms exactly its sources and changes no live event |
| `StoreDisk.RemoveDoomed` | src/diagnostics/diagnostic-store.ts:212-215 | unlinking a replaced file loses no event and revives no file |
| `StoreDisk.RemoveLive` | src/diagnostics/diagnostic-store.ts:409-418 | unlinking a segment while nothing is replaced removes its events and nothing else |
| `StoreSafety.RunKeeps` | src/diagnostics/diagnostic-store.ts:190-420 | every step of every run of appends, drains, compactions, prunes, failures, crashes and restarts keeps the invariant |
| `StoreSafety.EveryEventIsAccountedFor` | src/diagnostics/diagnostic-store.ts:239-420 | in every reachable state each appended event is in memory, committed, aged out of the fallback, dropped or lost in a crash, exactly once; what is committed is on disk or was removed by retention |
| `StoreSafety.IndexHoldsTheCommitted` | src/diagnostics/diagnostic-store.ts:280-420 | outside a rename the index lists exactly the files that hold the committed, unpruned events, and each entry is a recount of its file |
| `StoreSafety.RecoveryIsExact` | src/diagnostics/diagnostic-store.ts:190-237 | a crash in any reachable state followed by any complete start indexes exactly the committed, unpruned events as a multiset |
| `StoreSafety.ReplacedStaysReplaced` | src/diagnostics/diagnostic-store.ts:371-404 | while a replaced file remains on disk, a file whose header replaces it remains too, across any steps, crashes and restarts |
| `StoreSafety.StepNeverRevives` | src/diagnostics/diagnostic-store.ts:190-420 | no step brings a replaced file back or changes a segment in place |
| `StoreSafety.RetiredStaysAway` | src/diagnostics/diagnostic-store.ts:290-291 | a segment name that has left the disk never returns |
| `StoreSafety.PinnedSegmentsStay` | src/diagnostics/diagnostic-store.ts:499-537 | a pinned segment is indexed and on disk in every reachable state |
| `StoreSafety.NoStepUnlinksAPin` | src/diagnostics/diagnostic-store.ts:345-420 | no step unlinks a pinned segment |
| `StoreMaintenance.CutBatch` | src/diagnostics/diagnostic-store.ts:282-289 | the longest prefix of the queue that fits 4 MiB, at least one event and at most 200 |
| `StoreMaintenance.OldestFirst` | src/diagnostics/diagnostic-store.ts:348-350 | the index in (newest, name) order |
| `StoreMaintenance.ChooseSources` | src/diagnostics/diagnostic-store.ts:346-355 | the loop over candidates computes the greedy choice |
| `StoreMaintenance.ChoiceIsSafe` | src/diagnostics/diagnostic-store.ts:346-355 | the choice is unpinned, at most 64 segments, and fits one segment together with a header |
| `StoreMaintenance.HeaderFits` | src/diagnostics/diagnostic-store.ts:14-21 | every replacement header of at most 64 names fits the 8192 bytes that recovery reads |
| `StoreMaintenance.CompactionFits` | src/diagnostics/diagnostic-store.ts:345-369 | a compacted segment is at most 4 MiB |
| `StoreMaintenance.VictimsAreTheMinimalPrefix` | src/diagnostics/diagnostic-store.ts:405-418 | without pins the removed segments are the shortest prefix in (newest, name) order that restores the age, byte and count bounds |
| `StoreMaintenance.VictimsAreUnpinned` | src/diagnostics/diagnostic-store.ts:409-418 | no pinned segment is removed, whatever the bounds |
| `DiagnosticStores.DiagnosticStore.constructor` | src/diagnostics/diagnostic-store.ts:178-188 | a new process on an existing volume begins a valid trace |
| `DiagnosticStores.DiagnosticStore.Recover` | src/diagnostics/diagnostic-store.ts:190-229 | the start loops delete staging and replaced files, and index exactly the others by recounting them |
| `DiagnosticStores.DiagnosticStore.Initialize` | src/diagnostics/diagnostic-store.ts:190-237 | recovery followed by one maintenance pass |
| `DiagnosticStores.DiagnosticStore.Append` | src/diagnostics/diagnostic-store.ts:239-258 | an event joins the queue, or is counted as dropped if it is too long or the queue is full |
| `DiagnosticStores.DiagnosticStore.CommitBatch` | src/diagnostics/diagnostic-store.ts:290-317 | a batch becomes one indexed segment of at most 4 MiB, or its events join the fallback and the oldest overflow is dropped |
| `DiagnosticStores.DiagnosticStore.Drain` | src/diagnostics/diagnostic-store.ts:280-318 | the queue is emptied; every intermediate state is a step of the protocol; no segment on disk ever exceeds 4 MiB while sequence numbers have at most twelve digits |
| `DiagnosticStores.DiagnosticStore.Compact` | src/diagnostics/diagnostic-store.ts:345-386 | a successful compaction lowers the segment count strictly and leaves nothing half deleted; without sources it changes nothing |
| `DiagnosticStores.DiagnosticStore.WriteReplacement` | src/diagnostics/diagnostic-store.ts:357-375 | the header commits before the index switches; the new entry is a recount of the merged contents, of at most 4 MiB with a header that recovery reads |
| `DiagnosticStores.DiagnosticStore.CommitReplacement` | src/diagnostics/diagnostic-store.ts:365-368 | the merged contents appear on disk under a new name, or not at all |
| `DiagnosticStores.DiagnosticStore.UnlinkSources` | src/diagnostics/diagnostic-store.ts:376-386 | all sources are unlinked, or the rest stays obsolete for the next sweep |
| `DiagnosticStores.DiagnosticStore.SweepObsolete` | src/diagnostics/diagnostic-store.ts:395-401 | interrupted deletions are finished first |
| `DiagnosticStores.DiagnosticStore.CompactWhileMany` | src/diagnostics/diagnostic-store.ts:402-404 | the compaction loop terminates |
| `DiagnosticStores.DiagnosticStore.EnforceBounds` | src/diagnostics/diagnostic-store.ts:405-418 | the removal loop unlinks exactly the victims |
| `DiagnosticStores.DiagnosticStore.PruneSegments` | src/diagnostics/diagnostic-store.ts:388-420 | after a pass without failures exactly the victims are gone, nothing is obsolete, and the fallback holds what is recent enough |
| `DiagnosticStores.DiagnosticStore.TakeSnapshot` | src/diagnostics/diagnostic-store.ts:571-609 | the summed index equals counting every stored event one by one: bytes, events, levels, categories, drops |
| `DiagnosticStores.ReplacedNames` | src/diagnostics/diagnostic-store.ts:199-210 | the names that any header on disk replaces |
| `DiagnosticStores.CountFile` | src/diagnostics/diagnostic-store.ts:216-226 | an index entry is the recount of its file |
| `DiagnosticStores.ReadSources` | src/diagnostics/diagnostic-store.ts:357-364 | the merged contents are those of the sources in order |
| `DiagnosticStores.SumIndex` | src/diagnostics/diagnostic-store.ts:581-591 | the sums over the index |
| `DiagnosticStores.AddFallback` | src/diagnostics/diagnostic-store.ts:592-596 | the events in memory are added one by one |
| `DiagnosticStores.DiagnosticStore.QueryPage` | src/diagnostics/diagnostic-store.ts:477-569 | a page of the store is the page that ranking all committed, unexpired and in-memory events would give |
| `SegmentReader.ReadSegment` | src/diagnostics/diagnostic-store.ts:422-475 | however the stream is cut, the records are exactly those of the newline-terminated lines of at most 64 KiB, in order, and a fault is reported exactly if anything was unusable |
| `SegmentReader.TakeLines` | src/diagnostics/diagnostic-store.ts:436-461 | the inner loop handles every complete line of the buffer and leaves its unfinished rest |
| `SegmentReader.LineHandled` | src/diagnostics/diagnostic-store.ts:438-462 | a line whose beginning was discarded is discarded whole; the next line starts after its newline |
| `SegmentReader.TooLong` | src/diagnostics/diagnostic-store.ts:463-467 | discarding an overlong unfinished line never turns its rest into a record |
| `SegmentReader.WrittenIsReadBack` | src/diagnostics/diagnostic-store.ts:285-296 | reading back what was written yields the events in order and no fault, with or without a replacement header |
| `Pagination.InsertBounded` | src/diagnostics/diagnostic-store.ts:553-558 | remembering only the best k events gives the same best k after one more event |
| `Pagination.InsertBeyond` | src/diagnostics/diagnostic-store.ts:555 | an event that does not rank above the last of k remembered events changes nothing |
| `Pagination.RestAfter` | src/diagnostics/diagnostic-store.ts:554 | asking from the key of the k-th event lists exactly the rest |
| `Pagination.PagesSoFar` | src/diagnostics/diagnostic-store.ts:543-569 | after n pages exactly the first n * limit events have been listed |
| `Pagination.PaginationIsExact` | src/diagnostics/diagnostic-store.ts:543-569 | following the cursors to the end lists every matching retained event exactly once in descending order |
| `Pagination.WalkIsFinite` | src/diagnostics/diagnostic-store.ts:560-568 | a page carries a cursor exactly while fewer events are listed than there are |
| `Pagination.PageIgnoresScanOrder` | src/diagnostics/diagnostic-store.ts:477-537 | with distinct keys a page does not depend on the order in which events are scanned |
| `QueryScan.ExcludedHoldsNothing` | src/diagnostics/diagnostic-store.ts:489-497 | a segment that the index excludes holds no wanted event |
| `QueryScan.OlderCannotMatter` | src/diagnostics/diagnostic-store.ts:552 | once limit + 1 events are held, older ones cannot enter the page |
| `QueryScan.StopIsSound` | src/diagnostics/diagnostic-store.ts:512-514 | the early stop skips only segments that cannot change the page |
| `QueryScan.ReadPage` | src/diagnostics/diagnostic-store.ts:477-569 | the scan with exclusion, early stop and bounded list returns the page of all stored events |
| `QueryScan.EligibleSegments` | src/diagnostics/diagnostic-store.ts:493-500 | the segments that the index does not exclude, newest first |
| `QueryScan.ScanEvents` | src/diagnostics/diagnostic-store.ts:515-516 | offering the events of one file keeps the best limit + 1 of everything scanned |
| `FairSchedulers.ItemsAreConserved` | transcription-service/src/fair-scheduler.js:12-31 | adding adds one item, taking removes the one handed out, and something is handed out exactly if anything waits |
| `FairSchedulers.ScopesAreFifo` | transcription-service/src/fair-scheduler.js:12-31 | over any run the items of each scope come out in the order they went in, none lost and none twice |
| `FairSchedulers.RoundRobin` | transcription-service/src/fair-scheduler.js:20-31 | a scope at index i of its mode is served within i + 1 services of that mode, whatever is added |
| `FairSchedulers.TranscriptionIsServed` | transcription-service/src/fair-scheduler.js:20-31 | a transcription scope at index i is served within (i + 1)(weight + 1) takes, whatever is added |
| `FairSchedulers.SomeTranscriptionIsServed` | transcription-service/src/fair-scheduler.js:20-31 | any weight + 1 takes serve the transcription scope that is next |
| `FairSchedulers.DictationIsServed` | transcription-service/src/fair-scheduler.js:20-31 | a dictation scope at index i is served within 2(i + 1) takes |
| `FairSchedulers.DictationKeepsItsShare` | transcription-service/src/fair-scheduler.js:20-31 | of rounds * (weight + 1) takes while dictations wait, at least rounds * weight are dictations |
| `FairSchedulers.FairScheduler.constructor` | transcription-service/src/fair-scheduler.js:4-10 | the weight is clamped to 1..10 and nothing waits |
| `FairSchedulers.FairScheduler.Enlist` | transcription-service/src/fair-scheduler.js:12-18 | add takes the step of the state machine |
| `FairSchedulers.FairScheduler.TakeNext` | transcription-service/src/fair-scheduler.js:20-31 | take takes the step of the state machine and returns the item it serves; with nothing waiting the turn stays |
| `Residency.StepKeeps` | transcription-service/src/coordinator.js:181-428 | every guarded step of every coordinator keeps the invariant of the pool |
| `ResidencySafety.LiveModelsAreLeased` | transcription-service/src/coordinator.js:181-428 | over every guarded run a live model belongs to a coordinator that owns a slot, unless its connection is being lost |
| `ResidencySafety.LiveModelsAreBounded` | transcription-service/src/admission.js:41-135 | without a lost connection at most globalConcurrency models are live, one per coordinator |
| `ResidencySafety.SlotsAreGivenUpEmpty` | transcription-service/src/coordinator.js:251-280 | a slot, or the connection that holds it, is given up only when no model of the coordinator is left |
| `ResidencySafety.ComesBackEmpty` | transcription-service/src/coordinator.js:343-428 | after a loss a coordinator reconnects, asks and acquires only with its old model confirmed dead |
| `ResidencySafety.GuardIsExact` | transcription-service/src/coordinator.js:251-425 | a step leaves everything safe, as long as later steps keep their guard, if and only if its own guard holds |
| `ResidencySafety.UnwatchedReleaseGoesWrong` | transcription-service/src/coordinator.js:251-270 | a hand-off while a failed load is still stopping its model gives the slot away under it |
| `ResidencySafety.UnwatchedStopGoesWrong` | transcription-service/src/coordinator.js:780-789 | a forced stop in that situation returns the slot under a live model |
| `ResidencySafety.UnwatchedLossGoesWrong` | transcription-service/src/coordinator.js:421-424 | a loss in that situation ends the loss barrier at once |
| `ResidencySafety.ObliviousLossGoesWrong` | transcription-service/src/coordinator.js:282-287 | a loss while a load waits for an unload lets the load start a model without a lease |
| `ResidencySafety.LossCanStrandAModel` | transcription-service/src/coordinator.js:282-306 | the situation is reachable from every initial pool |
| `ResidencySafety.StopCanStrandAModel` | transcription-service/src/coordinator.js:771-789 | the same for a stop, with no connection lost |
| `ResidencySafety.HandOffCanStrandAModel` | transcription-service/src/coordinator.js:251-306 | from every initial pool a hand-off after a failed prewarm can strand a live model |
| `ResidencySafety.WaitingLoadCanStrandAModel` | transcription-service/src/coordinator.js:282-320 | from every initial pool a connection lost while a load waits for an unload can strand a live model |
| `ResidencySafety.StoppingIsFinal` | transcription-service/src/coordinator.js:771-789 | over every run a coordinator that is stopping stays so: it never connects, acquires, takes a job or starts a model again |
| `SpeechCoordinators.FirstFreeSlot` | transcription-service/src/admission.js:74-120 | a round gets the first slot that the broker can grant, or none if it can grant none; a grant keeps the invariant of the pool and finds no model alive |
| `SpeechCoordinators.SpeechCoordinator.Connected` | transcription-service/src/coordinator.js:343-353 | a new connection has a new identity, and no model of an earlier one is alive |
| `SpeechCoordinators.SpeechCoordinator.EnsureResidency` | transcription-service/src/coordinator.js:181-206 | the held lease, the acquisition in progress or a new one; while it is in progress no model is alive |
| `SpeechCoordinators.SpeechCoordinator.Acquired` | transcription-service/src/coordinator.js:196-201 | a cancelled acquisition gives the slot back instead of keeping it; no model is alive |
| `SpeechCoordinators.SpeechCoordinator.UnloadProvider` | transcription-service/src/coordinator.js:309-320 | joins an unload in progress or starts one |
| `SpeechCoordinators.SpeechCoordinator.UnloadSucceeded` | transcription-service/src/coordinator.js:314-318 | a confirmed unload closes the model |
| `SpeechCoordinators.SpeechCoordinator.UnloadFailed` | transcription-service/src/coordinator.js:309-320 | everything that waited for the unload fails, the provider is kept, and so is the invariant |
| `SpeechCoordinators.SpeechCoordinator.UnloadIdle` | transcription-service/src/coordinator.js:331-337 | the idle timer gives up the model, keeps the lease and the invariant |
| `SpeechCoordinators.SpeechCoordinator.LoadProvider` | transcription-service/src/coordinator.js:282-290 | loadProvider up to the warmup keeps the invariant and starts a model only under a lease |
| `SpeechCoordinators.SpeechCoordinator.ContinueLoading` | transcription-service/src/coordinator.js:283-290 | after waiting for an unload only `stopping` is checked again; within the guard a model is still only started under a lease |
| `SpeechCoordinators.SpeechCoordinator.WarmedUp` | transcription-service/src/coordinator.js:291-302 | the provider is kept only if the warmup succeeded and it is still the provider; the invariant holds either way |
| `SpeechCoordinators.SpeechCoordinator.FailedLoadTerminated` | transcription-service/src/coordinator.js:302-305 | the end of stopping the model of a failed load keeps the invariant, whether it succeeded or not |
| `SpeechCoordinators.SpeechCoordinator.ReleaseResidency` | transcription-service/src/coordinator.js:251-262 | the beginning of a release keeps the invariant if its guard holds |
| `SpeechCoordinators.SpeechCoordinator.ContinueRelease` | transcription-service/src/coordinator.js:263-268 | the lease is returned only if it is still the lease of this connection, and then no model is alive |
| `SpeechCoordinators.SpeechCoordinator.OnConnectionLost` | transcription-service/src/coordinator.js:410-425 | only the notification of the current connection counts; it starts the loss barrier, and keeps the invariant if its guard holds |
| `SpeechCoordinators.SpeechCoordinator.BeginStopping` | transcription-service/src/coordinator.js:771-773 | stopping begins and the invariant is kept |
| `SpeechCoordinators.SpeechCoordinator.StopProvider` | transcription-service/src/coordinator.js:780-786 | the provider is unloaded once the job has settled or its grace is over; the invariant is kept if the guard holds |
| `SpeechCoordinators.SpeechCoordinator.ReturnLease` | transcription-service/src/coordinator.js:787-789 | the lease is returned after the unload and any release in progress, and then no model is alive |
| `SpeechCoordinators.SpeechCoordinator.LeaseReturned` | transcription-service/src/coordinator.js:789 | the lease is gone once the broker has taken it back, and no model is alive |
| `InferenceSupervisor.RunKeeps` | transcription-service/src/inference-client.js:31-220 | every step of every interleaving keeps the invariant of the supervisor |
| `InferenceSupervisor.ForkOnlyAfterConfirmedDeath` | transcription-service/src/inference-client.js:31-32 | a process group is forked only after the termination of every earlier one has succeeded, and never after one has failed |
| `InferenceSupervisor.OneLiveGroup` | transcription-service/src/inference-client.js:175-209 | at most one group is not confirmed dead, and some field remembers it |
| `InferenceSupervisor.StepSettles` | transcription-service/src/inference-client.js:124-139 | only its own result resolves a run, and only a finished termination attempt rejects it |
| `InferenceSupervisor.SettledStaysSettled` | transcription-service/src/inference-client.js:124-209 | a run settles at most once |
| `InferenceSupervisor.NoRunIsOrphaned` | transcription-service/src/inference-client.js:154-209 | a pending run is the active one and a recovery rejects it; no run is resolved by the message of another |
| `InferenceSupervisor.ActiveRunHasAProcess` | transcription-service/src/inference-client.js:141-165 | while a run is active and nothing is being terminated its process exists |
| `InferenceSupervisor.StoppedStaysDead` | transcription-service/src/inference-client.js:216-220 | once stop has returned without an error no group of this client is alive, then or later |
| `InferenceSupervisor.InferenceClient.StartProcess` | transcription-service/src/inference-client.js:31-80 | forks exactly if there is no child, no fatal error and no stop |
| `InferenceSupervisor.InferenceClient.Warmup` | transcription-service/src/inference-client.js:82-89 | fails after a fatal error or a stop, and otherwise has a child to wait for |
| `InferenceSupervisor.InferenceClient.Begin` | transcription-service/src/inference-client.js:141-146 | a failed client that may not restart refuses without forking |
| `InferenceSupervisor.InferenceClient.Execute` | transcription-service/src/inference-client.js:147-165 | admits a run exactly if a ready process exists and no run is active |
| `InferenceSupervisor.InferenceClient.OnReady` | transcription-service/src/inference-client.js:91-99 | only the current child becomes ready |
| `InferenceSupervisor.InferenceClient.OnResult` | transcription-service/src/inference-client.js:108-121 | only the result of the active run from the current child is taken |
| `InferenceSupervisor.InferenceClient.Settled` | transcription-service/src/inference-client.js:124-139 | a result that arrives after the run was taken over settles nothing |
| `InferenceSupervisor.InferenceClient.BeginReset` | transcription-service/src/inference-client.js:175-188 | joins a recovery in progress or starts one for the child and the active run |
| `InferenceSupervisor.InferenceClient.FinishRecovery` | transcription-service/src/inference-client.js:188-209 | a failed termination or clean-up is fatal; the captured run is rejected only now |
| `VaultBridge.StepKeeps` | browser-extensions/findhub-auth/vault-page.js:10-57 | every step of page, relay and window keeps the order and nonce invariants |
| `VaultBridge.ScriptsGetBound` | browser-extensions/findhub-auth/vault-relay.js:23-34 | in either start order both scripts are bound once the worker has answered and the window is quiet |
| `VaultBridge.NoCallbackIsLost` | browser-extensions/findhub-auth/vault-relay.js:10-45 | under every interleaving, once things are quiet the first key callback has been submitted exactly once, if and only if no notice was refused before the relay had the keys |
| `VaultBridge.GivesUpIff` | browser-extensions/findhub-auth/vault-relay.js:10-45 | from any state the relay ends without having submitted keys exactly if it had given up already or a notice is refused early |
| `VaultBridge.KeysAreSubmittedAtMostOnce` | browser-extensions/findhub-auth/vault-relay.js:37-46 | in every state of every run keys are submitted at most once and as captured |
| `VaultBridge.FailedNeverSubmits` | browser-extensions/findhub-auth/vault-relay.js:10-30 | a relay that has given up before the keys reached it never submits them |
| `VaultBridge.RefusalLosesKeys` | browser-extensions/findhub-auth/vault-relay.js:16-21 | a run in which a refused readiness notice loses keys that were fired in time |
| `VaultBridge.VaultPage.Flush` | browser-extensions/findhub-auth/vault-page.js:17-21 | posts pending keys once, and the close notice |
| `VaultBridge.VaultPage.SetVaultSharedKeys` | browser-extensions/findhub-auth/vault-page.js:23-35 | keeps the first callback until it can be posted |
| `VaultBridge.VaultPage.Receive` | browser-extensions/findhub-auth/vault-page.js:38-46 | acknowledges a bind for its nonce before flushing an early callback |
| `VaultBridge.VaultPage.Install` | browser-extensions/findhub-auth/vault-page.js:47-50 | asks the relay to bind when it is installed |
| `VaultBridge.VaultPage.CloseView` | browser-extensions/findhub-auth/vault-page.js:36 | remembers the close notice until it can be posted |
| `VaultBridge.VaultPage.PageHidden` | browser-extensions/findhub-auth/vault-page.js:51-52 | forgets nonce and pending keys, and posts nothing any more |
| `VaultBridge.VaultRelay.ReportError` | browser-extensions/findhub-auth/vault-relay.js:10-15 | gives up once, and not after delivery |
| `VaultBridge.VaultRelay.BindReplied` | browser-extensions/findhub-auth/vault-relay.js:53-58 | takes the nonce and binds the page |
| `VaultBridge.VaultRelay.Receive` | browser-extensions/findhub-auth/vault-relay.js:26-45 | answers READY, binds once, and submits the first keys only |
| `VaultBridge.VaultRelay.KeysReplied` | browser-extensions/findhub-auth/vault-relay.js:40-45 | anything but a positive reply is reported, never resubmitted |
| `VaultBridge.VaultRelay.Notify` | browser-extensions/findhub-auth/vault-relay.js:16-21 | a notice is sent only while bound to a nonce and not given up |
| `VaultBridge.VaultRelay.HashChanged` | browser-extensions/findhub-auth/vault-relay.js:47-48 | the closing fragment is a close notice |
| `VaultBridge.VaultRelay.PageHidden` | browser-extensions/findhub-auth/vault-relay.js:49-51 | forgets the nonce and is silent from then on |
| `VaultWorker.StepKeeps` | browser-extensions/findhub-auth/background.js:53-265 | every step keeps the invariant, never moves the stage back, and an inactive attempt forwards nothing |
| `VaultWorker.ForwardsAtMostOnce` | browser-extensions/findhub-auth/background.js:53-265 | over every run the token and the keys are forwarded at most once each, the keys only after the token |
| `VaultWorker.RunKeeps` | browser-extensions/findhub-auth/background.js:53-265 | over every run the stage only moves forward, from consent to verifying |
| `VaultWorker.CleanedUpIsSilent` | browser-extensions/findhub-auth/background.js:37-52 | an attempt that was cleaned up forwards nothing more |
| `VaultWorker.WhatIsForwarded` | browser-extensions/findhub-auth/background.js:237-262 | keys are forwarded exactly if valid ones come from the bound document in the vault stage; a token exactly when a checked cookie is authorized |
| `VaultWorker.LinkAttempt.OnApprove` | browser-extensions/findhub-auth/background.js:204-208 | only the first approval of an attempt is accepted |
| `VaultWorker.LinkAttempt.OnLoginOpened` | browser-extensions/findhub-auth/background.js:213-218 | enters the login stage unless the attempt was cleaned up meanwhile |
| `VaultWorker.LinkAttempt.OnUnlock` | browser-extensions/findhub-auth/background.js:178-180 | accepted in the exchange stage only |
| `VaultWorker.LinkAttempt.End` | browser-extensions/findhub-auth/background.js:37-52 | cleanup ends the attempt |
| `VaultWorker.LinkAttempt.NewCookie` | browser-extensions/findhub-auth/background.js:53-55 | takes the reading lock in the login stage only |
| `VaultWorker.LinkAttempt.CookieRead` | browser-extensions/findhub-auth/background.js:56-67 | forwards the token once the focused login tab is confirmed |
| `VaultWorker.LinkAttempt.FinishWebSession` | browser-extensions/findhub-auth/background.js:103-112 | of several checks in flight only the first one enters the vault stage |
| `VaultWorker.LinkAttempt.OnVaultBind` | browser-extensions/findhub-auth/background.js:227-236 | only a document of the unlock in progress learns the nonce |
| `VaultWorker.LinkAttempt.OnVaultKeys` | browser-extensions/findhub-auth/background.js:255-262 | valid keys of the bound document are forwarded and end the vault stage |
| `SpeechRegions.DetectSpeechRegions` | transcription-service/src/provider.js:154-180 | the detector in memory returns the regions of the specification |
| `SpeechRegions.DetectSpeechRegionsFromFile` | transcription-service/src/provider.js:103-133 | the streamed detector returns the same regions for every complete file and fails on a short one |
| `SpeechRegions.RegionsAreExact` | transcription-service/src/provider.js:154-180 | regions are sorted, in range, at least 1440 samples long and 3360 apart, and cover every voiced frame; a buffer under 1440 samples has none |
| `SpeechRegions.GroupedIsGrouping` | transcription-service/src/provider.js:169-178 | groups begin and end with voiced frames, leave none out, and have no inner gap of seventeen frames |
| `SpeechRegions.NeighboursShareAGroup` | transcription-service/src/provider.js:172 | neighbouring voiced frames share a region exactly if they are at most seventeen frames apart |
| `SpeechRegions.ChunkRegions` | transcription-service/src/provider.js:182-202 | chunks are not empty and at most one window long, and leave nothing of sorted regions out |
| `SpeechRegions.Aggregate` | transcription-service/src/provider.js:187-192 | each sorted region lies in one merged region |
| `SpeechRegions.Cut` | transcription-service/src/provider.js:194-200 | the windows of one region cover it, and the loop ends |
| `ChunkedTranscription.Transcribe` | transcription-service/src/provider.js:404-412 | the loop terminates within a bounded number of windows that cover the source without a gap; a source within the limit is never too long, one beyond it never succeeds; segments are ordered, do not overlap and end within the duration |
| `ChunkedTranscription.ChunkMovesOn` | transcription-service/src/provider.js:310-397 | a window ends the source or moves at least half a window ahead, never past what was covered |
| `ChunkedTranscription.ChunkKeepsOrder` | transcription-service/src/provider.js:371-385 | a chunk keeps the accumulated segments in order if the engine keeps its stamps inside what it was given |
| `ChunkedTranscription.NewSegmentsInOrder` | transcription-service/src/provider.js:224-239 | rounded and clipped segments of one window stay ordered between the previous end and the end of the window |
| `ChunkedTranscription.CoversEverySample` | transcription-service/src/provider.js:310-321 | windows that never start after the end of the one before hold every sample |
| `ChunkedTranscription.EmptyWindowNeverSucceeds` | transcription-service/src/provider.js:320 | without a whole sample in the window nothing is transcribed, however short the source |
| `ChunkedTranscription.WindowsOverlapByHalfAtMost` | transcription-service/src/audio-normalizer.js:9-16 | the overlap in samples is at most half a window of at most 30 seconds |
| `ChunkedTranscription.DecodedIsInside` | transcription-service/src/provider.js:320-341 | the sentinel sample tells a full window from the end of the source |
| `ChunkedTranscription.SpokenPartIsInside` | transcription-service/src/provider.js:355-357 | the hull of the regions lies in the window |
| `Wav.WavBuffer` | transcription-service/src/whisper-cpp.js:12-27 | the buffer is the header followed by the quantized samples; more than 30 s are refused |
| `Wav.DecodeNormalizedWav` | transcription-service/src/audio-normalizer.js:37-99 | the reader returns the window of the specification; by the contract of ReadExactly no read passes the declared RIFF end |
| `Wav.ReadExactly` | transcription-service/src/audio-normalizer.js:23-30 | partial reads add up to exactly the requested bytes; the range must end within the given end |
| `Wav.FindSamples` | transcription-service/src/audio-normalizer.js:52-97 | the chunk walk finds the samples of the specification and visits at most 128 chunks |
| `Wav.LocatedInside` | transcription-service/src/audio-normalizer.js:51-77 | the samples that were found end within the declared RIFF end |
| `Wav.WrittenIsLocated` | transcription-service/src/whisper-cpp.js:16-21 | the reader finds exactly the samples that the writer wrote |
| `Wav.RoundTrip` | transcription-service/src/whisper-cpp.js:12-27 | decoding an encoded buffer gives the same number of samples, each within 1.5 / 32768 of its clamped value |
| `Wav.QuantizationError` | transcription-service/src/whisper-cpp.js:22-25 | one sample is quantized within 1.5 / 32768 |
| `Wav.ConsecutiveWindows` | transcription-service/src/audio-normalizer.js:77-93 | two consecutive windows are the window over both, whether they decode or not |
| `LiveState.TimesNeverGoBack` | manager/src/services/findhub-live-state.ts:3-53 | across any mix of snapshots and changes the position and query times of a device that stays present never move back |
| `LiveState.UpdateIsNotOlder` | manager/src/services/findhub-live-state.ts:13-53 | the same for one update |
| `LiveState.OrderDoesNotMatter` | manager/src/services/findhub-live-state.ts:28-48 | any order of the same updates, each without a list of devices, ends in the same position of every device whose valid locations have distinct times |
| `LiveState.PlacedIsNewest` | manager/src/services/findhub-live-state.ts:41-48 | the newest valid location that is not older than the known position wins |
| `LiveState.UpdatesPlaceAll` | manager/src/services/findhub-live-state.ts:28-48 | whatever else the updates change, the position of a device is decided by the locations they bring for it |
| `LiveState.ReconciliationCanGoBack` | manager/src/services/findhub-live-state.ts:3-25 | a delayed snapshot, and a delayed list of devices in a change, can set the reconciliation of a device back |
| `LiveState.ReconciliationGoesBackIff` | manager/src/services/findhub-live-state.ts:3-40 | an update sets the reconciliation of a present device back if and only if it belongs to the instance and lists the device with an older one, unless its details bring one that is not older |
| `LiveState.LiveSnapshot.Apply` | manager/src/services/findhub-live-state.ts:19-52 | a change updates the snapshot in place as specified, and afterwards the counts are a recount of the devices; one for another instance changes nothing |
| `LiveState.LiveSnapshot.UpdateDevices` | manager/src/services/findhub-live-state.ts:22-25 | listed devices are overlaid on the known ones, retaining what is newer |
| `LiveState.LiveSnapshot.Recount` | manager/src/services/findhub-live-state.ts:50-51 | both counts equal the devices |
| `LiveState.Replace` | manager/src/services/findhub-live-state.ts:14-18 | a snapshot replaces the current one, retaining what is newer in it |
| `DeliveryHandling.Delivery.Acknowledge` | transcription-service/src/coordinator.js:468-474 | acknowledges once, on the current channel, and only for a reason that the authority or the broker has confirmed |
| `DeliveryHandling.Delivery.NegativeAcknowledge` | transcription-service/src/coordinator.js:476-482 | rejects once, on the current channel |
| `DeliveryHandling.Delivery.RecheckWaitingJob` | transcription-service/src/coordinator.js:597-611 | ends a waiting job only on a terminal, cancelled or applied answer |
| `DeliveryHandling.Delivery.Persist` | transcription-service/src/coordinator.js:708-711 | an answer that neither applied nor found the job terminal is an error |
| `DeliveryHandling.Delivery.PublishDeadLetter` | transcription-service/src/coordinator.js:587-595 | only a confirmation of the broker counts as a dead letter |
| `DeliveryHandling.Delivery.HandleResident` | transcription-service/src/coordinator.js:658-713 | after residency an acknowledgement rests on the answer of the authority |
| `DeliveryHandling.Delivery.Recover` | transcription-service/src/coordinator.js:714-748 | after an error an acknowledgement rests on a persisted outcome, and for a permanent failure also on a confirmed dead letter |
| `DeliveryHandling.Delivery.Handle` | transcription-service/src/coordinator.js:613-755 | over every way to handle a delivery it is acknowledged at most once and only with evidence; a deferred one is not settled |
| `DeliveryHandling.Delivery.Settle` | transcription-service/src/coordinator.js:444-466 | however often it is handled, a delivery is acked or nacked at most once, and acked only with evidence from the handling that acks it |
| `SourceCaches.LeastRecentlyUsed` | transcription-service/src/coordinator.js:576 | the cache keys by last use |
| `SourceCaches.SourceCache.MakeRoom` | transcription-service/src/coordinator.js:573-580 | evicts the shortest least-recently-used prefix that makes room |
| `SourceCaches.SourceCache.SourceFor` | transcription-service/src/coordinator.js:568-585 | the byte count stays the sum of the entries, and the budget holds unless a download exceeds its reservation |
| `SourceCaches.SourceCache.Drop` | transcription-service/src/coordinator.js:555-560 | dropping twice counts once |
| `SourceCaches.SourceCache.Expire` | transcription-service/src/coordinator.js:562-566 | expiry never drops a source of the active job |

## Left out

- RetentionBatch.PrefixNeverDangles: speaks of prefixes of the deletion order; the loop that executes it can skip a row whose manifest moved, and that loop, like the GitHub API gates, is not part of this model.
- RetentionBatch.PrefixNeverDangles: does not protect the subject of a kept referrer, because the plan does not; RetentionBatch.SubjectsAreSafeIff says exactly when that matters.
- RetentionPlan.PlanPackage: a pin of a version outside the canonical list that the inventory does not hold ends the plan with an error, as the code does by failing on a missing key.
- RetentionPolicy.ValidatePolicy: regular expressions are predicates, and fields of another JSON type count as missing.
- DiagnosticStores.DiagnosticStore.Initialize: storage that could not be initialised, settings files, and read errors of segments are left out; every start finds a readable volume.
- DiagnosticStores.DiagnosticStore.QueryPage: pinning is one step that does not interleave with maintenance (a reader with an abort signal pins one promise turn later), and the page is computed on a fixed store and clock.
- StoreSafety.RecoveryIsExact: assumes what the names promise: process identifiers are never reused, sequence numbers have at most twelve digits, clocks thirteen; identifiers and timestamps are totally ordered numbers.
- DiagnosticStores.DiagnosticStore.Drain: files that an earlier version left on the volume may be longer than 4 MiB; the bound is about volumes without such files.
- SegmentReader.ReadSegment: JSON is a parameter; the text is the decoded stream, so characters are not split between chunks.
- Residency.StepKeeps: the death of a whole coordinator process, the handling of control messages and the contents of hand-off hints are not part of this model; a claim in flight when the connection is lost is taken to fail, as its channel rejects it.
- Residency.StepKeeps: the prewarm of transcription-service/src/service.js:35-36 is taken while no load is unfinished, no provider is left and no release has begun, which the source does not check: an aborted job of the connection before may still be loading, or a hand-off may begin in the same turn.
- ResidencySafety.LiveModelsAreBounded: speaks of runs whose steps keep their guard, for the reason given at ResidencySafety.LiveModelsAreLeased.
- ResidencySafety.SlotsAreGivenUpEmpty: likewise.
- ResidencySafety.ComesBackEmpty: likewise.
- SpeechCoordinators.SpeechCoordinator.UnloadProvider: a helper of several steps; the steps that call it state what they keep.
- ResidencySafety.LiveModelsAreLeased: false without the guards, which ResidencySafety.GuardIsExact shows to be exact; the corners are a failed load whose stop() is outstanding and a load that waits for an unload across a loss.
- SpeechCoordinators.FirstFreeSlot: retry delays, cancellation polling and time-outs of the broker calls are left out.
- InferenceSupervisor.RunKeeps: signals, /proc and the guardian process are one termination attempt with a stated result; timers, exits and failed sends are one reset that can happen at any time.
- InferenceSupervisor.InferenceClient.Warmup: a call that arrives during a recovery takes effect when it has ended, which holds because promise jobs run before the next event.
- VaultBridge.NoCallbackIsLost: replies to notices may come at any time, also without a notice; key filtering and message fields other than the nonce are left out.
- VaultWorker.ForwardsAtMostOnce: one attempt; tabs, windows, permissions and the texts shown to the user are left out.
- SpeechRegions.DetectSpeechRegions: the energy of a frame is a predicate on its samples; floating-point rounding is left out.
- ChunkedTranscription.Transcribe: offsets are exact rationals, the engine, the merging of texts and the size of a checkpoint are parameters; cancellation, identity checks and resuming from a stored checkpoint are left out.
- Wav.RoundTrip: samples are exact reals, and how four bytes stand for a float is a parameter.
- LiveState.TimesNeverGoBack: devices are values inside the snapshot object, so an older reference to a device object that a caller may hold is not modelled; settings and tracker state are left out.
- LiveState.OrderDoesNotMatter: updates that list devices replace the list, so their order matters; it is about updates of one device each.
- LiveState.ReconciliationCanGoBack: the comment at the top of the source file promises that a delayed snapshot never replaces a newer observation; the code protects positions and queries, not reconciliations.
- DeliveryHandling.Delivery.Handle: heartbeats and cancellation hints are folded into errors of the work on a claimed job.
- SourceCaches.SourceCache.SourceFor: file removal and the download itself are left out.
- Merging of overlapping texts, language codes, model identity, configuration parsing, HTTP, JSON schemas, deployment text and the Manager's pages are left out: one branch decides each of them.
