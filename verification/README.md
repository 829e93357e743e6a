# Verified model of Retrom

Retrom runs retro games in the browser. This project models five parts of it in
Dafny 4.11 and proves what they promise. `dafny verify dfyconfig.toml` checks
everything.

**The runtime request scheduler** (`scheduling.dfy`, `worker.dfy`,
`worker_invariant.dfy`, `worker_runs.dfy`, `worker_budget.dfy`, `worker_answers.dfy`,
`worker_frames.dfy`). Many callers share one child process
through two lanes. The lane is a class with the program's fields, proved against
functions on a lane value. The pool around it is a step system: any number of
callers, one reader and one writer for each process, failure at any step, restart,
and `Close`; every mutex section and channel operation is one step. The theorems
hold at every state of every interleaving; what was charged, sent and pushed is read
off the steps of a run, not off the pool's own records.

**The content-addressed Provider installer** (`inputs.dfy`, `bundles.dfy`,
`moves.dfy`, `install_invariants.dfy`, `install_traces.dfy`, `sync_files.dfy`,
`chunk_install.dfy`, `bundle_install.dfy`, `assemble.dfy`, `install_check.dfy`,
`install_cleanup.dfy`, `sync.dfy`, `syncer.dfy`, `install_history.dfy`,
`shared_cache.dfy`, `upgrade_history.dfy`, `example_pins.dfy`, `stale_active.dfy`).
The file system is a map from path to
content. Each method takes the atomic steps its source takes and records them with
the state after each; `Moves.Allowed` says what is known when a step is taken, and
the methods prove it. An interruption leaves one of the recorded states, so what
every allowed step keeps holds however runs are cut off. A digest is a free
constructor over what it digests.

**Versions, graphs and canonical JSON** (`semver.dfy`, `versions.dfy`,
`version_laws.dfy`, `catalog.dfy`, `canonical_text.dfy`, `canonical.dfy`,
`canonical_form.dfy`). Section
11 of Semantic Versioning 2.0.0 is stated without any comparator and the three
comparators are compared with it. The dependency check is proved against paths of
the graph, the canonical printer against equality up to key order and against readers
of its parts.

**Storage views and traversals** (`walk.dfy`, `content.dfy`, `relative_paths.dfy`,
`package.dfy`, `path_checks.dfy`, `uploads.dfy`).

**Indexes that agree with what they speed up** (`content_cache.dfy`,
`title_order.dfy`).

`sorting.dfy` is the sort the programs call from their libraries, `wrappers.dfy`
what all modules share.

Where a promise does not hold everywhere, a lemma gives the input and another the
exact condition:

- `compareVersions` orders numbers from 2^64 on by text, in a prerelease also
  against words (`VersionLaws.LargeNumbersMisordered`, `LargeNumberAfterWord`,
  exactly when: `CompareVersionsExactly`). It is not transitive on texts the version
  pattern refuses (`NotTransitiveOnAllTexts`).
- `describeBundle`'s "lists exactly the chunk files" holds when the list repeats no
  path (`Bundles.IntegrityListsExactly`, `ExamplePins.RepeatedListingPasses`).
- The ready invariant is one pin's. After a run for another pin is cut off between
  its two writes, the first pin's next run can reuse the root with the other's
  `active.json` (`StaleActives.StaleReusedInProduction`, `StaleReusedInTooling`,
  exactly when: `StaleActive`). Where the other pin was an upgrade, production
  refuses that run (`DowngradeRefused`).
- `_canonical` shows the order of two keys that share a UTF-16 encoding, and of no
  others; the bytes function refuses such values
  (`Canonical.SurrogatePairShowsOrder`, `OrderForgottenExactly`).
- Distinct upload paths are not enough for all files to be completed; the service
  also refuses a file that is a directory of another (`Uploads.DirectoryCountsAsFile`,
  `CompletesExactly`, `ValidateTree`).

## Model

| member | source | states |
|---|---|---|
| `Scheduling.ReserveKeeps` | internal/runtimeclient/scheduling.go:74-81 | an admitted lease keeps the lane invariant: flags, both histories, and exact counters within their limits |
| `Scheduling.EnqueueKeeps` | internal/runtimeclient/scheduling.go:83-96 | accepting a frame, or refusing it as busy, keeps the lane invariant; accepted bytes never exceed 64 MiB |
| `Scheduling.DispatchKeeps` | internal/runtimeclient/scheduling.go:98-108 | from any consistent lane, dispatching restores the whole invariant: afterwards every slot is taken or nobody waits |
| `Scheduling.ReleaseKeeps` | internal/runtimeclient/scheduling.go:127-145 | releasing a lease in any state keeps the lane invariant |
| `Scheduling.ReleaseIsSafe` | internal/runtimeclient/scheduling.go:134-143 | the index deleted at exists and the token received is there, so release neither panics nor blocks with the mutex held |
| `Scheduling.HeadNotStarted` | internal/runtimeclient/scheduling.go:99-108 | the head of the queue has not been started, so no ready channel is closed twice |
| `Scheduling.ServedInArrivalOrder` | internal/runtimeclient/scheduling.go:90-108 | a lease never starts before an earlier accepted one that has neither started nor been released |
| `Scheduling.DrainedLaneIsEmpty` | internal/runtimeclient/scheduling.go:127-145 | when all leases are released, tokens, bytes, slots and queue are as they were at the start |
| `Scheduling.RequestLane.Reserve` | internal/runtimeclient/scheduling.go:74-81 | exactly when a token is free a new lease joins the lane, and nothing else changes |
| `Scheduling.RequestLane.Enqueue` | internal/runtimeclient/scheduling.go:83-96 | accepts exactly when the bytes held and the size are at most 64 MiB together; then the lease has that size and the lane holds that much more, it starts at once if a slot is free and waits last otherwise; a refused one changes nothing |
| `Scheduling.RequestLane.Dispatch` | internal/runtimeclient/scheduling.go:98-108 | starts as many leases from the head of the queue, in order, as there are free slots, does nothing else and leaves a valid lane, from any consistent one |
| `Scheduling.RequestLane.Release` | internal/runtimeclient/scheduling.go:127-145 | does nothing the second time; the first time the lease returns its bytes, token and place, and its slot goes to the head of the queue if it had one and anybody waits |
| `Scheduling.DispatchExactly` | internal/runtimeclient/scheduling.go:98-108 | what dispatching leaves, field by field and lease by lease, without recursion |
| `Scheduling.EnqueueExactly` | internal/runtimeclient/scheduling.go:83-96 | what an accepted frame changes, field by field; no other lease changes |
| `Scheduling.ReleaseExactly` | internal/runtimeclient/scheduling.go:127-145 | what a first release changes, field by field; at most one other lease changes, by starting |
| `WorkerInvariant.StepKeeps` | internal/runtimeclient/worker.go:77-326 | every enabled step of callers, writers, readers, failing processes and Close keeps the pool invariant |
| `WorkerInvariant.NewPoolInvariant` | internal/runtimeclient/worker.go:67-75 | the empty pool satisfies the invariant |
| `WorkerInvariant.CallerStepKeeps` | internal/runtimeclient/worker.go:88-182 | each step of a Call, in any order with all others, keeps the pool invariant |
| `WorkerInvariant.ProcessStepKeeps` | internal/runtimeclient/worker.go:259-326 | each step of a reader, a writer or a failing process keeps the pool invariant |
| `WorkerInvariant.CloseStepKeeps` | internal/runtimeclient/worker.go:77-86 | each step of Close keeps the pool invariant |
| `WorkerRuns.RunInvariant` | internal/runtimeclient/worker.go:67-326 | every state of every interleaving from the empty pool satisfies the invariant |
| `WorkerRuns.UniqueOwner` | internal/runtimeclient/worker.go:105-110 | an unreleased lease has exactly one owner among its caller, a pending entry, the reader and a failing process; a released one has none |
| `WorkerRuns.ReleaseByOwner` | internal/runtimeclient/worker.go:105-153 | whoever releases a lease is its owner and the lease is unreleased, so the released guard never fires |
| `WorkerRuns.ReleasedAtMostOnce` | internal/runtimeclient/worker.go:233-326 | no run has two releasing steps for one lease |
| `WorkerRuns.ConcludedIsReleased` | internal/runtimeclient/worker.go:259-324 | once its process has failed or answered and its call has returned, a lease is released |
| `WorkerRuns.NothingLeaks` | internal/runtimeclient/worker.go:88-182 | when all calls have returned and are concluded both lanes are empty |
| `WorkerRuns.OutstandingBounded` | internal/runtimeclient/worker.go:114-182 | the requests of one lane handed to an unfailed process and not answered are at most the lane's slots, 4 or 2 |
| `WorkerRuns.OutstandingTotal` | internal/runtimeclient/worker.go:114-182 | however many callers have given up, an unfailed process has at most six unanswered requests |
| `WorkerRuns.OwnAnswerOnce` | internal/runtimeclient/worker.go:143-181 | completed gets at most one send, a response received carries the caller's own number, and numbers differ |
| `WorkerAnswers.AnswerExactly` | internal/runtimeclient/worker.go:139-181 | over every run: what a caller took from its channel, or finds there, is the one answer sent; it is the response under its number exactly when the reader took its entry and is through, and its process's failure exactly when fail took it and is through; never both, and in the second case the process has failed |
| `WorkerFrames.FramesExactly` | internal/runtimeclient/worker.go:158-165 | over every run: a process's channel holds in order the frames callers pushed and its writer has not taken, at most 64; no frame is pushed twice and a cancel frame only after its request |
| `WorkerFrames.WaitsExactly` | internal/runtimeclient/worker.go:114-181 | over every run: a call can go on exactly when it does not wait for the encoding slot, its turn, room in a full write queue, its answer or the end of fail; its context or the pool's ends every wait but the last |
| `WorkerBudget.BytesAreCharges` | internal/runtimeclient/scheduling.go:83-96 | over every run: a lane's bytes are the sizes of the frames enqueued and accepted whose lease nobody has released since, and at most 64 MiB |
| `WorkerBudget.AcceptedExactly` | internal/runtimeclient/scheduling.go:83-96 | over every run: a frame is accepted exactly when it fits beside those; a refused one leaves the lanes as they were |
| `WorkerRuns.ReaderNeverBlocks` | internal/runtimeclient/worker.go:316-323 | a reader holding or owing a response can always take its next step |
| `WorkerRuns.FailNeverBlocks` | internal/runtimeclient/worker.go:259-279 | a failing process can always take its next step, whatever callers do |
| `WorkerRuns.FailStepShrinks` | internal/runtimeclient/worker.go:259-279 | each step of fail reduces its remaining work by one, and no other step of the pool changes it |
| `WorkerRuns.FailEnds` | internal/runtimeclient/worker.go:259-279 | over any stretch of any run, what fail had to do is what it has done and what is left; it has failed exactly when nothing is left |
| `WorkerRuns.AtMostOneLiveProcess` | internal/runtimeclient/worker.go:197-231 | at most one process is alive and it is the pool's current one |
| `WorkerRuns.CloseIsFinal` | internal/runtimeclient/worker.go:77-86 | after Close has returned no process is alive and none is started again |
| `WorkerRuns.EveryInterleaving` | internal/runtimeclient/worker.go:67-326 | at every point of every run: unique ownership, exact and bounded lanes of 4 and 2 slots, 32 and 6 tokens and 64 MiB with no idle slot, at most six outstanding requests, one answer each |
| `ProviderInputs.ValidateInputs` | internal/providersync/inputs.go:123-147 | accepts exactly the descriptors with valid records, distinct Provider ids and a matching release tag |
| `ProviderInputs.ValidateChunk` | internal/providersync/inputs.go:179-198 | accepts exactly the chunks whose files ascend, are new to the manifest and add up, under their own identity |
| `ProviderInputs.ParseManifest` | internal/providersync/inputs.go:153-177 | a byte string yields a manifest for a record exactly when it decodes to one with globally distinct paths and the pinned totals |
| `ProviderInputs.PinOfDigest` | internal/providersync/inputs.go:118-120 | two pins with one descriptor digest are one pin |
| `ProviderInputs.AssetsDistinct` | internal/providersync/inputs.go:141-147 | manifests of Providers with different ids never share an asset name, hyphens in ids and versions notwithstanding |
| `Bundles.DescribeBundle` | internal/providersync/assemble.go:93-167 | the loops compute the one description a tree has against its pin; there is one exactly when both documents are the pinned ones and say what is on disk |
| `Bundles.DescribedWhen` | internal/providersync/assemble.go:93-167 | field by field when a bundle is described and which error it gives otherwise: unavailable for a missing document, invalid for anything else |
| `Bundles.DescribeExactly` | internal/providersync/assemble.go:93-137 | on the pinned bytes a bundle is described exactly when the pinned digests agree with each other |
| `Bundles.IntegrityListsExactly` | internal/providersync/assemble.go:93-137 | a matching integrity list covers all chunk files but one exactly when it repeats no path |
| `ExamplePins.RepeatedListingPasses` | internal/providersync/assemble.go:93-137 | a valid pin whose list names provider.json twice and leaves out another file: describeBundle accepts its pinned bytes |
| `SyncFiles.FileSystem.WriteAtomic` | internal/providersync/fsutil.go:41-59 | readers see the old file or the whole new one at every step in between |
| `SyncFiles.FileSystem.LinkOrCopy` | internal/providersync/fsutil.go:73-98 | the target gets the source's bytes under the same or a fresh inode; nothing else changes |
| `SyncFiles.CreatedSound` | internal/providersync/fsutil.go:85-98 | a created file takes a fresh inode, so one inode still has one content |
| `SyncFiles.LinkedSound` | internal/providersync/fsutil.go:73-84 | a hard link adds no content to an inode |
| `ChunkInstall.FetchVerified` | internal/providersync/fsutil.go:111-127 | succeeds exactly when the source serves an asset with the pinned size and digest |
| `ChunkInstall.ExtractChunk` | internal/providersync/chunks.go:126-173 | an archive is unpacked exactly when it holds the listed files in order with their bytes, and then nothing else is there |
| `ChunkInstall.SeedSource` | internal/providersync/chunks.go:81-105 | finds a candidate directory with every listed file and byte when there is one |
| `ChunkInstall.SeedChunk` | internal/providersync/chunks.go:58-81 | seeds exactly when some seed holds a complete copy; then the target has exactly the listed bytes, else nothing changed |
| `ChunkInstall.EnsureChunk` | internal/providersync/chunks.go:16-56 | a chunk directory already present is left alone; a new one appears whole, with exactly the listed bytes, or not at all; where the paths fit it succeeds exactly when the chunk is there, a seed holds it or the source serves it, and it is seeded exactly when a seed holds it |
| `BundleInstall.FetchManifests` | internal/providersync/sync.go:205-251 | afterwards every pinned manifest is stored with the pinned bytes, and nothing but manifests changed; it succeeds, with no source at all, when seeds and cache hold them |
| `BundleInstall.ManifestBytes` | internal/providersync/sync.go:237-251 | gives the pinned bytes exactly when a seed or the cache holds them or the source serves them |
| `BundleInstall.EnsureSpace` | internal/providersync/sync.go:253-273 | refuses exactly when something is missing and the free space is below what it needs plus the margin |
| `BundleInstall.SpaceExactly` | internal/providersync/sync.go:253-260 | what is called for is the unpacked files and the archives of every chunk the cache lacks |
| `BundleInstall.SpaceCoversPeak` | internal/providersync/sync.go:253-273 | what passes the check has room, and 64 MiB more, at every moment of the installation: for all chunks unpacked so far and the next one beside its archive |
| `Assembly.Assemble` | internal/providersync/assemble.go:52-91 | afterwards the bundle is installed and described, only its path changed, and a described bundle is kept as it is |
| `Assembly.LinkedHoldsAll` | internal/providersync/assemble.go:69-79 | linking chunk files that hold their pinned bytes gives exactly the bundle's files with theirs |
| `InstallCheck.Check` | internal/providersync/check.go:22-77 | reports exactly the chunks and bundles of which a listed file is missing, irregular or of another size, or with a full check of other bytes, and the bundles with a wrong integrity file |
| `InstallCheck.SharedChunkDamagesBundles` | internal/providersync/check.go:46-60 | a damaged chunk invalidates the bundle of every Provider that lists it |
| `InstallCheck.CheckExactly` | internal/providersync/check.go:22-77 | the same without the check's own functions, where one inode has one content: hard links of hashed files need not be hashed again |
| `InstallCheck.CheckSound` | internal/providersync/check.go:22-77 | after either check every listed file of what was not reported is there, regular and of its size, and after a full one with its pinned bytes |
| `InstallCheck.PinnedBytesPass` | internal/providersync/check.go:22-77 | where the pinned bytes are in place neither kind of check reports anything |
| `InstallCleanup.Discard` | internal/providersync/check.go:92-110 | removes the marker and exactly the reported chunks and bundles |
| `InstallCleanup.RemoveUnreferenced` | internal/providersync/check.go:153-173 | removes exactly the entries not kept, with digestsOnly only digest-named directories, and counts them |
| `InstallCleanup.Clean` | internal/providersync/check.go:112-151 | removes staging data and exactly what the marker does not reference; fails only for a marker with more Providers than the pin |
| `InstallCleanup.CleanupExactly` | internal/providersync/check.go:112-173 | nothing the marker names is removed; of digest-named directories only its bundles, and in production only its chunks, remain |
| `Synchronizer.CheckVersions` | internal/providersync/sync.go:356-387 | in production passes exactly when no pinned Provider is older than, or a rebuild of, the installed one; else the first conflict, file by file, decides the error |
| `Synchronizer.ReadyState` | internal/providersync/sync.go:333-354 | returns marker and manifests exactly when the marker names the pin and all stored manifests have the pinned bytes |
| `Synchronizer.Commit` | internal/providersync/sync.go:302-331 | writes active.json and then the marker; afterwards the root is complete for the pin |
| `InstallInvariants.CacheSoundKept` | internal/providersync/chunks.go:16-56 | whatever the pin, after any step a digest-named cache directory holds exactly the files its name identifies |
| `InstallInvariants.OnePinKept` | internal/providersync/sync.go:146-203 | every step of a run for a pin keeps the ready invariant of that pin |
| `InstallTraces.OnePinTrace` | internal/providersync/sync.go:146-203 | wherever a run for the pin is cut off, the ready invariant holds |
| `InstallTraces.WholeKept` | internal/providersync/sync.go:176-203 | no step gives a listed file another size or takes its pinned bytes |
| `InstallTraces.OwnVersionsAllowed` | internal/providersync/sync.go:356-387 | a pin is never a downgrade or a rebuild of itself |
| `InstallTraces.ActiveExactly` | internal/providersync/sync.go:302-314 | active.json of a pin: every pinned Provider's entry once, ascending by id, and the release, or without one the source tree |
| `InstallTraces.MarkerExactly` | internal/providersync/sync.go:316-331 | ready.json of a pin: its digest, the time, and every Provider with its version, bundle and all its chunks |
| `Syncers.Syncer.Install` | internal/providersync/sync.go:176-203 | success leaves the root complete; from states of interrupted runs it succeeds when there is room and every manifest and chunk is in the cache, under a seed or served |
| `Syncers.Syncer.Run` | internal/providersync/sync.go:146-162 | reuses exactly when versions, marker and files pass; from any state success is complete and clean; after interrupted runs it recovers, or reuses without fetching; a refused version changes nothing; where the pin's marker was, success leaves every listed file there with its size, and a full one with its pinned bytes |
| `Syncers.CompletedCleaned` | internal/providersync/check.go:112-151 | what a pin's marker stands for survives cleanup |
| `Syncers.RepairedWhole` | internal/providersync/check.go:22-110 | after either check and its repair every listed file still present has its size, after a full one its pinned bytes |
| `Syncers.MarkedPasses` | internal/providersync/sync.go:146-156 | in a state interrupted runs leave, a marker means both checks pass and the root is complete |
| `InstallHistory.RunContinues` | internal/providersync/sync.go:146-203 | any part of a run can follow any history that ends where the run begins |
| `InstallHistory.EveryStateOfOnePin` | internal/providersync/sync.go:146-203 | every state of every history of one pin from an empty root satisfies the ready invariant |
| `InstallHistory.ReadyMeansInstalled` | internal/providersync/sync.go:316-354 | a marker naming the pin means stored manifests, exact chunk directories, bundles that are disjoint unions of their chunks, and active.json listing the pinned Providers in order |
| `InstallHistory.InterruptedRunsStayHonest` | internal/providersync/sync.go:146-203 | the same at every state of every history of runs each cut off after any step |
| `StaleActives.SameActiveExactly` | internal/providersync/sync.go:302-314 | two pins write the same active.json exactly when they list the same Providers, whatever their order, and the same release or source tree |
| `StaleActives.StaleActive` | internal/providersync/sync.go:146-162 | after a run for another pin stops between its two writes, the first pin's next run reuses exactly if it is in tooling mode or its pin passes the upgrade rules against the other; active.json is right exactly if both pins list the same |
| `StaleActives.FollowsBothWays` | internal/providersync/sync.go:356-387 | with both runs in production that is so exactly if no Provider the pins share changed precedence |
| `StaleActives.DroppingIsFollowed` | internal/providersync/sync.go:356-387 | a second pin that only drops Providers passes always and never lists the same |
| `StaleActives.LaterRun` | internal/providersync/sync.go:146-162 | a run reuses exactly under these tests, reports success and leaves active.json as it is; a production run that fails the upgrade rules changes nothing and returns the error of the first conflict |
| `StaleActives.StaleHistory` | internal/providersync/sync.go:146-203 | for any two pins of one Provider and chunk that the second run's mode allows, the steps of two runs from the empty root lead to such a state |
| `StaleActives.DowngradeRefused` | internal/providersync/sync.go:356-387 | in production, with 1.0.0 complete and an upgrade to 2.0.0 cut off, a run for 1.0.0 is refused, as a downgrade |
| `StaleActives.StaleReusedInProduction` | internal/providersync/sync.go:146-162 | in production, one Provider version from two source trees: the second run is cut off and the first pin's next run reuses the second's active.json |
| `StaleActives.StaleReusedInTooling` | internal/providersync/sync.go:146-162 | in tooling mode a run for 1.0.0 reuses a root whose active.json lists 2.0.0 |
| `InstallHistory.SynchronizeAgain` | internal/providersync/sync.go:151-156 | in a marked and settled state a synchronization with any options fetches, links and repairs nothing, and no state from its first to its last differs |
| `InstallHistory.RecoverThenReuse` | internal/providersync/sync.go:146-203 | one good synchronization completes; the next, with any options, reuses, fetches nothing, and no state between the end of the first and the end of the second differs |
| `SharedCache.Collection.CollectGarbage` | internal/providersync/gc.go:10-49 | removes exactly the digest-named directories no listed marker names; stopped anywhere it has removed only some of them; an unreadable marker stops it first |
| `SharedCache.CollectionIsSteps` | internal/providersync/gc.go:38-47 | each removal of a collection is a step of the shared-cache histories |
| `SharedCache.SoundNotDamaged` | internal/providersync/check.go:46-77 | without outside damage no published chunk is ever reported |
| `SharedCache.SharedKept` | internal/providersync/sync.go:94-105 | every step of a tooling synchronization or a collection listing all roots keeps all markers genuine and their chunks present |
| `SharedCache.MarkedChunksStay` | internal/providersync/gc.go:10-49 | over any serialized mix of tooling synchronizations and collections, each cut off anywhere, every marked chunk stays present and whole |
| `UpgradeHistory.StepUpgrades` | internal/providersync/sync.go:356-387 | one step of a production run leaves an installed Provider its pin lists at the same or a later version |
| `UpgradeHistory.StillInstalled` | internal/providersync/sync.go:302-314 | over a production history a Provider every pin lists stays in active.json and is only upgraded |
| `UpgradeHistory.VersionsNeverDecrease` | internal/providersync/sync.go:356-387 | versions written for it never decrease, and entries of equal precedence anywhere in the history carry the same bundle |
| `UpgradeHistory.PrecedenceNeverDecreases` | internal/providersync/sync.go:356-387 | the same in terms of SemVer 2.0.0 section 11, for numbers below 2^64 |
| `Semver.PrecedenceTotal` | internal/providersync/check.go:175-191 | section 11 precedence orders any two versions one way |
| `Semver.PrecedenceTransitive` | internal/providersync/check.go:175-191 | section 11 precedence is transitive |
| `Versions.CompareFields` | internal/providersync/check.go:193-213 | the index loop computes the lexical comparison of the fields |
| `Versions.CompareProviderVersions` | scripts/runtime_providers.py:132-154 | the early-exit loop computes the comparison, or refuses a text the pattern does not match |
| `Versions.ParseSemver` | scripts/dependencies.py:74-90 | accepts exactly strict versions and returns what they mean |
| `Versions.DependencyOrderIsPrecedence` | scripts/dependencies.py:93-105 | comparing the parsed tuples is section 11 precedence |
| `VersionLaws.CompareVersionsSymmetry` | internal/providersync/check.go:175-213 | compareVersions is reflexive and flips its sign with its arguments |
| `VersionLaws.CompareVersionsTransitive` | internal/providersync/check.go:175-213 | compareVersions is transitive on all versions the installer admits, and equality is a congruence |
| `VersionLaws.NotTransitiveOnAllTexts` | internal/providersync/check.go:175-213 | on texts the pattern refuses it is not transitive |
| `VersionLaws.CompareVersionsIsPrecedence` | internal/providersync/check.go:175-213 | for strict versions with numbers below 2^64 it is section 11 precedence |
| `VersionLaws.CoreFieldExactly` | internal/providersync/check.go:195-209 | two core numbers are ordered by value exactly when one is below the largest uint64 or text order puts the shorter first |
| `VersionLaws.PrereleaseFieldExactly` | internal/providersync/check.go:195-209 | two identifiers are ordered as section 11 says exactly when numbers beyond 64 bits happen to be rightly ordered as text, among themselves and against words |
| `VersionLaws.CompareVersionsExactly` | internal/providersync/check.go:175-213 | on strict versions compareVersions is section 11 precedence exactly when it is right on the first field that differs |
| `VersionLaws.LargeNumbersMisordered` | internal/providersync/check.go:175-213 | 2 * 10^19 comes after 10^20, as a major number and as a prerelease identifier |
| `VersionLaws.LargeNumberAfterWord` | internal/providersync/check.go:175-213 | 1.0.0-20000000000000000000 comes after 1.0.0-0a |
| `VersionLaws.ProviderOrderIsPrecedence` | scripts/runtime_providers.py:132-154 | _compare_semver is section 11 precedence without any bound |
| `VersionLaws.ComparatorsAgree` | scripts/dependencies.py:93-105 | all three comparators have the same sign on strict versions, the Go one for numbers below 2^64 |
| `VersionLaws.AdjacentIsPairwise` | scripts/dependencies.py:62-71 | a list ordered at each neighbour is ordered at every pair |
| `VersionLaws.ParseVersions` | scripts/dependencies.py:62-71 | accepts exactly the non-empty lists of strict versions that increase strictly, all pairs considered |
| `Catalog.OrderedIsAcyclic` | workspace/catalog.py:98-113 | an order in which everything follows its dependencies excludes cycles |
| `Catalog.Visitor.Visit` | workspace/catalog.py:101-110 | terminates; raising means the graph has a cycle, returning means the repository and all before are done with the visiting set restored |
| `Catalog.CheckAcyclic` | workspace/catalog.py:98-113 | raises exactly when the graph has a cycle, in whatever order repositories and dependencies come |
| `Catalog.Closure` | workspace/catalog.py:30-37 | the worklist ends with exactly the repositories a chain of dependencies reaches |
| `Catalog.ParseManifest` | workspace/catalog.py:18-40 | accepts exactly the acyclic graphs with distinct known ids in which retrom-runtime reaches everything |
| `Catalog.GraphExactly` | workspace/catalog.py:92-96 | the graph has exactly the declared repositories, each with its own dependencies |
| `CanonicalText.EscapeAllUnique` | scripts/runtime_provider_contract.py:741-742 | an escaped string ends at its closing quote and determines its characters |
| `CanonicalText.IntegerUnique` | scripts/runtime_provider_contract.py:735-738 | decimal texts determine the integer and where it ends |
| `CanonicalText.Utf8AllUnique` | scripts/runtime_provider_contract.py:103-107 | UTF-8 determines the text |
| `CanonicalText.BytesOrder` | scripts/runtime_provider_contract.py:748 | comparing big-endian bytes is comparing UTF-16 code units |
| `CanonicalText.KeyBytesUnique` | scripts/runtime_provider_contract.py:748 | keys without surrogates have different encodings |
| `Canonical.RenderedUnique` | scripts/runtime_provider_contract.py:728-752 | a printed value can be told from whatever follows it |
| `Canonical.RenderInjective` | scripts/runtime_provider_contract.py:728-752 | values with the same text are equal up to key order |
| `Canonical.AlikeRenders` | scripts/runtime_provider_contract.py:745-751 | where no object inside has two keys with one encoding, values equal up to key order print the same |
| `Canonical.CanonicalBytesExactly` | scripts/runtime_provider_contract.py:103-107 | canonical_json_bytes has the same outcome for any key order, and equal bytes mean equal values up to key order; it succeeds exactly for supported values without surrogates |
| `CanonicalForm.ObjectExactly` | scripts/runtime_provider_contract.py:745-751 | an object is `{`, its members as `"key":value` with commas between, in an arrangement whose keys never descend by UTF-16 code units, and `}` |
| `CanonicalForm.ArrayExactly` | scripts/runtime_provider_contract.py:743-744 | a list is `[`, its items in order with commas between, and `]` |
| `CanonicalForm.ScalarExactly` | scripts/runtime_provider_contract.py:728-742 | null, true and false stand for themselves; a reader of RFC 8259 strings gets a string back; an integer up to 2^53 - 1 is its decimal digits without leading zeros, a larger one and a float are refused |
| `CanonicalForm.EscapesLeast` | scripts/runtime_provider_contract.py:741-742 | only quotes, backslashes and control characters are escaped, briefly where RFC 8259 has a brief form |
| `CanonicalForm.BytesExactly` | scripts/runtime_provider_contract.py:103-107 | the bytes are the characters' encodings of RFC 3629 one after another; a text with a surrogate is refused |
| `CanonicalForm.Utf16Reads` | scripts/runtime_provider_contract.py:748 | the code units keys are ordered by are those of RFC 2781 |
| `Canonical.SharedShows` | scripts/runtime_provider_contract.py:745-751 | a value with two such keys, however deep inside, has another key order that prints differently |
| `Canonical.OrderForgottenExactly` | scripts/runtime_provider_contract.py:728-752 | the text of a supported value is one for all its key orders exactly when no object inside has two keys with one encoding |
| `Canonical.SurrogatePairShowsOrder` | scripts/runtime_provider_contract.py:728-752 | _canonical alone shows the order of a surrogate pair and the character it encodes; the bytes are refused |
| `Walk.Scanner.Next` | internal/storage/walk.go:42-78 | the batch is the next part of the traversal; the end is reported exactly when fewer steps than asked for were left |
| `Walk.Scan` | internal/storage/walk.go:42-78 | batches of any sizes join to a prefix of one recursive traversal, and to all of it once they allow for every step |
| `Walk.TraversalExactly` | internal/storage/walk.go:80-134 | every regular file at most 32 directories deep appears exactly once, with the later of its time and that of its temporary/<id>, and nothing else |
| `Walk.WalkedExactly` | internal/storage/walk.go:104-134 | below any directory exactly the files paths resolve to are found |
| `Walk.WalkedOnce` | internal/storage/walk.go:104-134 | no file is returned twice |
| `Walk.TemporaryAncestor` | internal/storage/walk.go:88-99 | the inherited time is that of the directory temporary/<id> on the path |
| `Content.OpenContent` | internal/storage/content.go:21-41 | opens exactly the intervals that lie in a regular file, with no 64-bit overflow in the test |
| `Content.Content.Read` | internal/storage/content.go:43-63 | gives the next bytes of the logical file and never one outside it; the end is reported exactly at its end |
| `Content.Content.Seek` | internal/storage/content.go:65-88 | moves exactly when the target lies in the logical file; no step leaves 64 bits |
| `Content.ReadAll` | internal/storage/content.go:43-63 | reading to the end in pieces of any size gives the rest of the logical file |
| `Content.ReadPart` | internal/storage/content.go:43-88 | seeking and reading gives exactly the bytes at that offset |
| `RelativePaths.CleanExactly` | internal/model/content_validation.go:16-23 | a relative path is in its cleaned form, and not `.`, `..` or below `..`, exactly when each of its parts goes down by a name |
| `PathChecks.SafeContentPathExactly` | internal/model/content_validation.go:16-23 | SafeContentPath accepts exactly the valid UTF-8 of 1 to 1024 bytes, without control characters or backslashes, whose parts each go down by a name |
| `PathChecks.Utf8ValidExactly` | internal/model/content_validation.go:16-23 | a byte string passes the UTF-8 check exactly when it encodes a text without surrogates |
| `PathChecks.SafeRelativeExactly` | internal/providersync/inputs.go:226-233 | safeRelative, which looks at the parts, accepts exactly the clean relative paths below where they start, without backslash or NUL |
| `Package.ValidateContent` | internal/storage/package.go:97-115 | accepts exactly the sets with distinct safe keys within all limits; the running total never overflows |
| `Package.MemberInterval` | internal/storage/package.go:276-286 | the data offset read back from a member's header leads to exactly its data |
| `Package.ObjectBound` | internal/storage/package.go:23-28 | 2304 bytes a member and 1024 more cover every header, descriptor, directory entry and end record |
| `Package.PackageFits` | internal/storage/package.go:194-196 | no valid content set can exceed MaximumPackageSize |
| `Package.WritePackage` | internal/storage/package.go:182-245 | writes the archive of the sources, or stops at one that cannot be read or has changed; the counter is its size |
| `Package.VerifyPackage` | internal/storage/package.go:247-300 | accepts exactly the archives whose directory matches the sources and, reading back, whose bytes hash to theirs |
| `Package.WrittenVerifies` | internal/storage/package.go:276-300 | what was written from unchanged sources always verifies |
| `Package.BuildPackage` | internal/storage/package.go:130-180 | succeeds exactly for valid unchanged sets with room for them, 2304 bytes each, and 1 GiB; then every file is a member whose interval is its source, ordered by key and disjoint, within MaximumPackageSize |
| `Package.OpenMember` | internal/storage/content.go:21-41 | a returned member opened as a view is its source, byte for byte |
| `Package.ValidatePackage` | internal/model/content_validation.go:27-60 | accepts exactly the packages with valid intervals within all limits; no 64-bit step overflows |
| `Package.BuiltIsValid` | internal/model/content_validation.go:27-60 | a package that was built passes ValidatePackage |
| `Uploads.ValidateTree` | internal/service/scans/upload.go:338-363 | accepts exactly trees of distinct paths none of which is a directory of another |
| `Uploads.Upload.Append` | internal/storage/uploads.go:102-148 | accepts a chunk exactly at the received length when it arrives whole and fits; otherwise nothing held changes |
| `Uploads.Upload.Files` | internal/storage/uploads.go:82-100 | reports for each file the length of the chunks accepted for it |
| `Uploads.HeldMore` | internal/storage/uploads.go:133-147 | one more accepted chunk keeps every file held as the concatenation of its chunks and published exactly when complete |
| `Uploads.Replay` | internal/storage/uploads.go:102-148 | over any sequence of requests, wrong offsets, cut or oversized bodies and resends, a file in the tree is the client's file |
| `Uploads.CompletesExactly` | internal/storage/uploads.go:48-80 | files declared with distinct paths all end up in the tree as sent, in whatever order they arrive, exactly when no path is a directory of another |
| `Uploads.DirectoryCountsAsFile` | internal/storage/uploads.go:218-222 | with `a` of one byte and `a/b` empty, `a` counts as received without a byte, and no order completes both |
| `ContentCache.Cache.Put` | internal/persistence/content_cache.go:42-64 | keeps order, keys, weights and bounds; evicts exactly the shortest oldest prefix that makes room |
| `ContentCache.Cache.Get` | internal/persistence/content_cache.go:29-40 | returns the listing accepted for the key among the last ones, as many as there are entries; nothing exactly when none of those was for it |
| `ContentCache.EvictionsLeast` | internal/persistence/content_cache.go:55-60 | the number evicted is the least after which at most 16 entries of at most 32 MiB are there with the new one |
| `ContentCache.WeightExactly` | internal/persistence/content_cache.go:21-27 | a listing weighs 256 for each file and its logical keys and media types |
| `ContentCache.PageAfter` | internal/persistence/content.go:41-61 | the page after a row is the next rows in key order |
| `ContentCache.ReadPages` | internal/persistence/content.go:83-118 | terminates with the whole listing, or refuses an invalid, empty or oversized one |
| `ContentCache.PackageContent` | internal/persistence/content.go:83-118 | returns the same with any truthful cache as with none and leaves the cache truthful: all rows field by field, exactly when there are 1 to 50,000 and each lies within the file |
| `ContentCache.ListingSorted` | internal/persistence/content.go:83-118 | what is returned is complete and strictly ascending |
| `TitleOrder.Of` | internal/format/titleorder/titleorder.go:66-118 | the text is the first 48 characters of the trimmed sort name, without one of the trimmed title; its letter is the last of A to Z, or of the pinyin letters, that its Latin, or Han, first character is not before, and `#` before all, for other scripts and for no text; the key is the letter's place in two digits and the text's collation key |
| `TitleOrder.Group` | internal/format/titleorder/titleorder.go:88-110 | the loop finds the last candidate the character is not before |
| `TitleOrder.RanksOrderKeys` | internal/format/titleorder/titleorder.go:82-83 | keys of a lower letter sort before keys of a higher one, whatever follows |
| `TitleOrder.UpdateKeeps` | internal/persistence/title_order.go:40-47 | the guarded update never stores an order computed from a superseded title |
| `TitleOrder.Games.RefreshTitleOrder` | internal/persistence/title_order.go:12-50 | with saves and deletions before any statement it ends with no stale row; at every point in between each current row is true to its title; no title is changed |
| `TitleOrder.GameLetters` | internal/persistence/title_order.go:68-79 | offsets are the running sums of the counts before them |
| `TitleOrder.LettersAreBlocks` | internal/persistence/title_order.go:52-80 | for any filter, a letter's rows are exactly the block of the ordered list from its offset, as long as its count |
| `TitleOrder.LettersCoverList` | internal/persistence/title_order.go:52-80 | the counts add up to the whole list |
| `TitleOrder.RefreshedIsKeyed` | internal/persistence/title_order.go:12-50 | after a refresh every list of rows has its letters in its keys |

## Left out

- Worker: the pool is a value advanced by step functions, as interleaving needs; sharing of lease objects is in `Scheduling.RequestLane`, where they are objects.
- The 2^64 wrap of the request counter, and timeouts as durations: expiry and cancellation are steps that may come at any time.
- WorkerFrames.FramesExactly: cancellations of callers that left are not bounded by the slots, so the channel's own capacity is the only bound on `writes`.
- WorkerAnswers.AnswerExactly: the text of a response is not modelled beyond the number it carries.
- `commandTimeout`, `runtimeFailure` and the decoding of results: they follow the hand-over and change nothing in it.
- ProviderInputs.ValidateInputs: patterns over digest texts are not modelled, because a digest is a value here; `repository`, `tool` and `schema` texts are carried or dropped as the code does nothing with them.
- ProviderInputs.ParseManifest: sums of sizes are unbounded integers, so an int64 wrap of hostile totals is not modelled.
- SyncFiles.FileSystem.WriteAtomic: completed writes are durable and renames atomic; disk-full, permission errors and reordered writes are not modelled.
- Partial `RemoveAll`: removal of a directory is one step. With partial removal "presence means complete" does not survive a crash.
- InstallCheck.CheckExactly: that one inode has one content is assumed of the file system a synchronization starts on; every step keeps it (`SyncFiles.InodesSound`).
- A symbolic link or directory in place of a bundle's `integrity.json` or `provider.json` counts as unreadable.
- Syncers.Syncer.Run: of the counts it reports, those of repairs, of new chunks and of a reused root's removals are stated; byte counts are not. Repair is promised for altered listed files under the pin's own marker; a marker edited from outside is covered only by what success means.
- The order of equal-named seeds' bundles, the counters shown in logs, and the lock files: serialization is assumed, and a cache equal to its root, where the second lock waits for the first, is excluded.
- Regular expressions are predicates on the split text, and only ASCII white space is stripped.
- Python's recursion limit in the cycle check and the field checks of the manifest before it.
- Numbers, floats and other types beyond schema 1 in canonical JSON are refused, as in the code.
- Walk.Scanner.Next: errors other than a missing directory, and changes of the tree during the scan.
- Package.BuildPackage: the central directory and end record are what they decode to and their length; checksums, media types, cancellation and publication by rename are not modelled.
- Uploads.Upload.Append: a crash between the last write and the rename, after which the code refuses the file; sync and truncate succeed.
- ContentCache.Cache.Put: an empty listing, which `packageContent` never stores.
- TitleOrder.Games.RefreshTitleOrder: which 500 stale rows a batch picks (the code takes the lowest ids) and the reported count.
- Collation, trimming and script tables in the title order are parameters; the SQL filter is any choice of rows.
- HTTP handlers, accounts, favourites, saves and tags, the web client and the build tools: their rules are single statements.
