/**
 `syncer.run` and `syncer.install` (`internal/providersync/sync.go:146-203`):
 what a synchronization reaches from any state, and from the states that
 interrupted ones leave.
*/
module Syncers {
  import opened Wrappers
  import opened ProviderInputs
  import opened Bundles
  import opened Moves
  import opened InstallInvariants
  import opened InstallTraces
  import opened SyncFiles
  import opened ChunkInstall
  import opened BundleInstall
  import opened Assembly
  import opened InstallCheck
  import opened InstallCleanup
  import opened Synchronizer

  // ---------------------------------------------------------------------
  // What cleanup leaves alone.
  // ---------------------------------------------------------------------

  lemma GarbageUnreferenced(c: Context, files: Files, marker: ReadyMarker)
    ensures forall path | path in Garbage(c, files, marker) :: Unreferenced(c, files, marker, path)
  {
    hide MarksBundle, MarksChunk, MarksManifest;
  }

  lemma GarbageSpares(c: Context, files: Files, marker: ReadyMarker)
    ensures ActivePath(c.root) !in Garbage(c, files, marker) && ReadyPath(c.root) !in Garbage(c, files, marker)
  {
    hide MarksBundle, MarksChunk, MarksManifest;
  }

  lemma RecordSpared(c: Context, files: Files, time: int, record: ProviderRecord)
    requires PinValid(c.pin) && record in c.pin.inputs.providers
    requires MarkerAt(files, c.root) == Some(MarkerFor(c.pin, time))
    ensures var garbage := Garbage(c, files, MarkerFor(c.pin, time));
            && BundlePath(c.root, record) !in garbage && ManifestPath(c.root, record) !in garbage
            && forall chunk | chunk in ChunksOf(record) :: ChunkPath(c.cache, chunk.chunkId) !in garbage
  {
    hide MarkerAt, MarkerFor, Garbage, Unreferenced, PinValid;
    var marker := MarkerFor(c.pin, time);
    GarbageUnreferenced(c, files, marker);
    forall path | path in Garbage(c, files, marker)
      ensures path != BundlePath(c.root, record) && path != ManifestPath(c.root, record)
      ensures forall chunk | chunk in ChunksOf(record) :: path != ChunkPath(c.cache, chunk.chunkId)
    {
      MarkerKeeps(c, files, time, record, path);
    }
  }

  /** What the marker of a pin stands for survives cleanup. */
  lemma CompletedCleaned(c: Context, files: Files, time: int)
    requires PinValid(c.pin) && Completed(files, c) && MarkerAt(files, c.root) == Some(MarkerFor(c.pin, time))
    ensures Completed(files - Garbage(c, files, MarkerFor(c.pin, time)), c)
    ensures MarkerAt(files - Garbage(c, files, MarkerFor(c.pin, time)), c.root) == Some(MarkerFor(c.pin, time))
  {
    hide PinValid, Garbage, Pinned, Describe, ActiveFor, MarkerFor;
    var marker := MarkerFor(c.pin, time);
    var rest := files - Garbage(c, files, marker);
    GarbageSpares(c, files, marker);
    var written :| Stored(files, ReadyPath(c.root), Encoded(MarkerText(MarkerFor(c.pin, written))));
    assert Stored(rest, ReadyPath(c.root), Encoded(MarkerText(MarkerFor(c.pin, written))));
    forall record | record in c.pin.inputs.providers
      ensures RecordInstalled(rest, c, record) && Described(rest, c.root, record)
    {
      assert RecordInstalled(files, c, record) && Described(files, c.root, record);
      RecordSpared(c, files, time, record);
    }
  }

  /** Every listed file of every chunk and bundle is there with its size, and with `bytes` with its pinned bytes. */
  ghost predicate AllHeld(files: Files, c: Context, bytes: bool) {
    forall record | record in c.pin.inputs.providers :: FilesHeld(files, c, record, bytes)
  }

  ghost predicate FilesHeld(files: Files, c: Context, record: ProviderRecord, bytes: bool) {
    && AllThere(TreeAt(files, BundlePath(c.root, record)), BundleFiles(record), bytes)
    && forall chunk | chunk in ChunksOf(record) ::
         AllThere(TreeAt(files, ChunkPath(c.cache, chunk.chunkId)), chunk.files, bytes)
  }

  lemma HeldCleaned(c: Context, files: Files, time: int, bytes: bool)
    requires PinValid(c.pin) && AllHeld(files, c, bytes) && MarkerAt(files, c.root) == Some(MarkerFor(c.pin, time))
    ensures AllHeld(files - Garbage(c, files, MarkerFor(c.pin, time)), c, bytes)
  {
    hide PinValid, Garbage, MarkerAt, MarkerFor, AllThere;
    var rest := files - Garbage(c, files, MarkerFor(c.pin, time));
    forall record | record in c.pin.inputs.providers ensures FilesHeld(rest, c, record, bytes) {
      assert FilesHeld(files, c, record, bytes);
      RecordSpared(c, files, time, record);
      forall chunk | chunk in ChunksOf(record)
        ensures TreeAt(rest, ChunkPath(c.cache, chunk.chunkId)) == TreeAt(files, ChunkPath(c.cache, chunk.chunkId))
      {
      }
    }
  }

  lemma WholeCompletedHeld(files: Files, c: Context, bytes: bool)
    requires Whole(files, c, bytes) && Completed(files, c)
    ensures AllHeld(files, c, bytes)
  {
    hide AllThere, Pinned, Describe;
    forall record | record in c.pin.inputs.providers ensures FilesHeld(files, c, record, bytes) {
      assert RecordWhole(files, c, record, bytes) && RecordInstalled(files, c, record);
      forall chunk | chunk in ChunksOf(record)
        ensures AllThere(TreeAt(files, ChunkPath(c.cache, chunk.chunkId)), chunk.files, bytes)
      {
        assert ChunkWhole(files, c.cache, chunk, bytes);
      }
    }
  }

  lemma CheckedHeld(files: Files, c: Context, full: bool)
    requires Coherent(files) && DamageOf(files, c, full) == Damage({}, {})
    ensures AllHeld(files, c, full)
  {
    hide AllThere, Coherent, DamageOf;
    forall record | record in c.pin.inputs.providers ensures FilesHeld(files, c, record, full) {
      CheckSound(files, c, record, full);
    }
  }

  /** A check and its repair leave no listed file of another size, and a full one none with other bytes. */
  lemma RepairedWhole(files: Files, c: Context, full: bool)
    requires Coherent(files) && forall record | record in c.pin.inputs.providers :: Pinned(record)
    ensures Whole(files - Discarded(c, DamageOf(files, c, full)), c, full)
  {
    hide AllThere, Coherent, DamageOf, Pinned;
    var bad := DamageOf(files, c, full);
    var rest := files - Discarded(c, bad);
    forall record | record in c.pin.inputs.providers ensures RecordWhole(rest, c, record, full) {
      CheckSound(files, c, record, full);
      if BundlePath(c.root, record) in rest {
        assert BundlePath(c.root, record) == LocationPath(c.root, LocationOf(record));
        assert LocationOf(record) !in bad.bundles;
      }
      forall chunk | chunk in ChunksOf(record) ensures ChunkWhole(rest, c.cache, chunk, full) {
        if ChunkPath(c.cache, chunk.chunkId) in rest {
          assert chunk.chunkId !in bad.chunks;
        }
      }
    }
  }

  // ---------------------------------------------------------------------
  // Recovery: from a state an interrupted run for the pin left.
  // ---------------------------------------------------------------------

  lemma MarkedHeld(files: Files, c: Context, record: ProviderRecord)
    requires OnePin(files, c) && ReadyPath(c.root) in files && record in c.pin.inputs.providers
    ensures RecordHeld(files, c, record) && ManifestStored(files, c.root, record)
    ensures Described(files, c.root, record)
  {
    hide CacheSound;
    assert RecordInstalled(files, c, record) && BundleSound(files, c.root, record);
    var tree := files[BundlePath(c.root, record)].tree;
    ExactDescribed(record, tree);
    forall chunk | chunk in ChunksOf(record)
      ensures HoldsAll(TreeAt(files, ChunkPath(c.cache, chunk.chunkId)), chunk.files)
    {
      SoundChunkHeld(files, c, record, chunk);
    }
  }

  lemma SoundChunkHeld(files: Files, c: Context, record: ProviderRecord, chunk: Chunk)
    requires CacheSound(files, c.cache) && Pinned(record) && chunk in ChunksOf(record)
    requires ChunkPath(c.cache, chunk.chunkId) in files
    ensures HoldsAll(TreeAt(files, ChunkPath(c.cache, chunk.chunkId)), chunk.files)
  {
    PinnedChunk(record, chunk);
    assert ChunkSound(files[ChunkPath(c.cache, chunk.chunkId)], chunk.chunkId);
  }

  /** With the marker in place both checks pass and nothing has to be fetched. */
  lemma MarkedPasses(files: Files, c: Context, full: bool)
    requires OnePin(files, c) && ReadyPath(c.root) in files
    ensures ReadyHolds(files, c) && Completed(files, c) && Genuine(files, c)
    ensures DamageOf(files, c, full) == Damage({}, {})
  {
    hide DamageOf, RecordHeld, Pinned, Describe, ActiveFor, CacheSound, BundlesSound, RecordInstalled;
    MarkerRead(c, files);
    forall record | record in c.pin.inputs.providers
      ensures RecordHeld(files, c, record) && ManifestStored(files, c.root, record) && Described(files, c.root, record)
    {
      MarkedHeld(files, c, record);
    }
    PinnedBytesPass(files, c, full);
  }

  lemma UnmarkedInstalls(files: Files, c: Context)
    requires PinValid(c.pin) && OnePin(files, c)
    ensures VersionsAllow(files, c.root, c.pin.inputs)
    ensures ReadyPath(c.root) !in files ==> !ReadyHolds(files, c)
  {
    OwnVersionsAllowed(files, c);
  }

  /**
   A state interrupted runs leave, the pinned manifests and chunks somewhere within
   reach (the cache, a seed or the source), and enough space.
  */
  ghost predicate CanInstall(files: Files, c: Context, options: Options) {
    && OnePin(files, c) && AllObtainable(files, options, c) && RoomFor(files, c, options.available)
  }

  /** Nothing staged, and nothing the marker does not reference. */
  ghost predicate Settles(files: Files, c: Context) {
    && Swept(files, c) && MarkerAt(View(files), c.root).Some?
    && Garbage(c, View(files), MarkerAt(View(files), c.root).value) == {}
  }

  lemma GarbageOnce(c: Context, files: Files, marker: ReadyMarker)
    ensures Garbage(c, files - Garbage(c, files, marker), marker) == {}
    ensures MarkerAt(files - Garbage(c, files, marker), c.root) == MarkerAt(files, c.root)
  {
    hide MarksBundle, MarksChunk, MarksManifest;
    GarbageSpares(c, files, marker);
  }

  lemma CleanedIsClean(c: Context, before: Files, files: Files, marker: ReadyMarker)
    requires MarkerAt(before, c.root) == Some(marker)
    ensures View(files) == before - Garbage(c, before, marker) && Swept(files, c) ==> Settles(files, c)
  {
    hide Garbage, MarkerAt;
    GarbageOnce(c, before, marker);
  }

  lemma MarkerLength(pin: Pin, time: int)
    ensures |MarkerFor(pin, time).providers| == |pin.inputs.providers|
  {
  }

  lemma CompletedCleanedIn(fs: FileSystem, time: int)
    requires fs.Valid() && Completed(fs.Now(), fs.c) && MarkerAt(fs.Now(), fs.c.root) == Some(MarkerFor(fs.c.pin, time))
    ensures var rest := fs.Now() - Garbage(fs.c, fs.Now(), MarkerFor(fs.c.pin, time));
            && Completed(rest, fs.c) && MarkerAt(rest, fs.c.root) == Some(MarkerFor(fs.c.pin, time))
            && forall bytes | AllHeld(fs.Now(), fs.c, bytes) :: AllHeld(rest, fs.c, bytes)
  {
    hide Completed, Garbage, MarkerAt, MarkerFor, AllHeld;
    CompletedCleaned(fs.c, fs.Now(), time);
    forall bytes | AllHeld(fs.Now(), fs.c, bytes)
      ensures AllHeld(fs.Now() - Garbage(fs.c, fs.Now(), MarkerFor(fs.c.pin, time)), fs.c, bytes)
    {
      HeldCleaned(fs.c, fs.Now(), time, bytes);
    }
  }

  lemma InstalledHeld(fs: FileSystem, begin: nat, start: Files)
    requires fs.Valid() && begin < |fs.trace| && fs.trace[begin] == start && Completed(fs.Now(), fs.c)
    ensures forall bytes | Whole(start, fs.c, bytes) :: AllHeld(fs.Now(), fs.c, bytes)
  {
    hide Whole, Completed, AllHeld, PinValid;
    forall bytes | Whole(start, fs.c, bytes) ensures AllHeld(fs.Now(), fs.c, bytes) {
      WholeTrace(fs.c, fs.trace, fs.log, begin, |fs.log|, bytes);
      WholeCompletedHeld(fs.Now(), fs.c, bytes);
    }
  }

  lemma StartFacts(fs: FileSystem, options: Options)
    requires fs.Valid()
    ensures OnePin(fs.Now(), fs.c) ==> VersionsAllow(fs.Now(), fs.c.root, fs.c.pin.inputs)
    ensures OnePin(fs.Now(), fs.c) && ReadyPath(fs.c.root) !in fs.Now() ==> !ReadyHolds(fs.Now(), fs.c)
    ensures OnePin(fs.Now(), fs.c) && ReadyPath(fs.c.root) in fs.Now() ==>
      && ReadyHolds(fs.Now(), fs.c) && DamageOf(fs.Now(), fs.c, options.full) == Damage({}, {})
  {
    hide OnePin, VersionsAllow, ReadyHolds, DamageOf, PinValid;
    if OnePin(fs.Now(), fs.c) {
      UnmarkedInstalls(fs.Now(), fs.c);
      if ReadyPath(fs.c.root) in fs.Now() {
        MarkedPasses(fs.Now(), fs.c, options.full);
      }
    }
  }

  /** Reading chunk and bundle directories, settled files are all that counts. */
  lemma SameChunkView(files: Files, c: Context, record: ProviderRecord, chunk: Chunk, full: bool)
    ensures ChunkDamaged(files, c.cache, chunk, full) == ChunkDamaged(View(files), c.cache, chunk, full)
    ensures ChunkUnfit(files, c, record, chunk, full) == ChunkUnfit(View(files), c, record, chunk, full)
  {
    hide FileMatches;
    ViewTree(files, ChunkPath(c.cache, chunk.chunkId));
    ViewTree(files, BundlePath(c.root, record));
    forall file | file in chunk.files
      ensures CachedMatches(files, c.cache, chunk, file, full) == CachedMatches(View(files), c.cache, chunk, file, full)
      ensures FileDamaged(files, c, record, chunk, file, full) == FileDamaged(View(files), c, record, chunk, file, full)
    {
    }
  }

  lemma SameView(files: Files, c: Context, full: bool)
    ensures DamageOf(files, c, full) == DamageOf(View(files), c, full)
  {
    hide ChunkDamaged, ChunkUnfit, IntegrityHeld;
    forall record, chunk | record in c.pin.inputs.providers && chunk in ChunksOf(record)
      ensures ChunkDamaged(files, c.cache, chunk, full) == ChunkDamaged(View(files), c.cache, chunk, full)
      ensures ChunkUnfit(files, c, record, chunk, full) == ChunkUnfit(View(files), c, record, chunk, full)
    {
      SameChunkView(files, c, record, chunk, full);
    }
    forall record | record in c.pin.inputs.providers
      ensures BundleDamaged(files, c, record, full) == BundleDamaged(View(files), c, record, full)
    {
      ViewTree(files, BundlePath(c.root, record));
    }
  }

  lemma NowCoherent(fs: FileSystem)
    requires fs.Valid()
    ensures Coherent(fs.Now())
  {
    hide Follows, PinValid, Nodes;
    NodesWithin(fs.files, fs.Now());
  }

  lemma ReuseFacts(fs: FileSystem, full: bool)
    requires fs.Valid() && ReadyHolds(fs.Now(), fs.c) && DamageOf(fs.Now(), fs.c, full) == Damage({}, {})
    ensures (OnePin(fs.Now(), fs.c) && ReadyPath(fs.c.root) in fs.Now()) || Genuine(fs.Now(), fs.c) ==>
      var marker := MarkerAt(fs.Now(), fs.c.root).value;
      && |marker.providers| <= |fs.c.pin.inputs.providers|
      && (Completed(fs.Now(), fs.c) ==> Completed(fs.Now() - Garbage(fs.c, fs.Now(), marker), fs.c))
      && AllHeld(fs.Now() - Garbage(fs.c, fs.Now(), marker), fs.c, full)
    ensures OnePin(fs.Now(), fs.c) && ReadyPath(fs.c.root) in fs.Now() ==> Completed(fs.Now(), fs.c)
  {
    hide OnePin, Completed, Garbage, AllHeld, Coherent, DamageOf;
    if OnePin(fs.Now(), fs.c) && ReadyPath(fs.c.root) in fs.Now() {
      MarkedPasses(fs.Now(), fs.c, full);
    }
    if Genuine(fs.Now(), fs.c) {
      var time := MarkerAt(fs.Now(), fs.c.root).value.completedAtMs;
      MarkerLength(fs.c.pin, time);
      if Completed(fs.Now(), fs.c) {
        CompletedCleaned(fs.c, fs.Now(), time);
      }
      NowCoherent(fs);
      CheckedHeld(fs.Now(), fs.c, full);
      HeldCleaned(fs.c, fs.Now(), time, full);
    }
  }

  lemma AllPinned(files: Files, c: Context)
    requires ReadyHolds(files, c)
    ensures forall record | record in c.pin.inputs.providers :: Pinned(record)
  {
    hide Pinned;
    forall record | record in c.pin.inputs.providers ensures Pinned(record) {
      var i :| 0 <= i < |c.pin.inputs.providers| && c.pin.inputs.providers[i] == record;
      assert ManifestStored(files, c.root, c.pin.inputs.providers[i]);
    }
  }

  lemma RepairFacts(fs: FileSystem, full: bool)
    requires fs.Valid() && ReadyHolds(fs.Now(), fs.c)
    ensures Whole(fs.Now() - Discarded(fs.c, DamageOf(fs.Now(), fs.c, full)), fs.c, full)
  {
    hide Coherent, Whole, DamageOf, ReadyHolds, Discarded;
    AllPinned(fs.Now(), fs.c);
    NowCoherent(fs);
    RepairedWhole(fs.Now(), fs.c, full);
  }

  lemma DiscardKeepsActive(files: Files, c: Context, bad: Damage)
    ensures VersionsAllow(files - Discarded(c, bad), c.root, c.pin.inputs)
       <==> VersionsAllow(files, c.root, c.pin.inputs)
  {
    PathsDiffer();
    ActiveElsewhere(files, files - Discarded(c, bad), c.root, c.pin.inputs);
  }

  /** What a run tests before it reuses: versions first, in production, then the marker, then the files. */
  ghost predicate Reuses(files: Files, c: Context, full: bool) {
    && (c.production ==> VersionsAllow(files, c.root, c.pin.inputs))
    && ReadyHolds(files, c) && DamageOf(files, c, full) == Damage({}, {})
  }

  /** The marker is the pin's own; listed files may be anything. */
  ghost predicate Repairable(files: Files, c: Context) {
    ReadyHolds(files, c) && Genuine(files, c)
  }

  /** The counts of what a cleanup for the marker takes from `files`. */
  predicate CountsRemoved(c: Context, files: Files, marker: ReadyMarker, chunks: nat, bundles: nat) {
    && chunks == (if c.production then |ChunkGarbage(c, files, marker)| else 0)
    && bundles == |BundleGarbage(c, files, marker)|
  }

  lemma StartObtainable(files: Files, options: Options, c: Context)
    ensures AllObtainable(files, options, c) ==> ManifestsObtainable(files, options, c, 0)
  {
    if AllObtainable(files, options, c) {
      ObtainableParts(files, options, c);
    }
  }

  lemma FetchedObtainable(a: Files, b: Files, options: Options, c: Context)
    requires WithoutManifests(a) == WithoutManifests(b)
    ensures AllObtainable(a, options, c) ==> ChunksObtainable(b, options, c)
  {
    hide WithoutManifests, ChunksObtainable;
    if AllObtainable(a, options, c) {
      ObtainableParts(a, options, c);
      ObtainableBesideManifests(a, b, options, c);
    }
  }

  /** Manifests aside, what an installation has added once the chunks are there are chunks. */
  lemma NewBesideManifests(a: Files, b: Files, d: Files, cache: string)
    requires WithoutManifests(b) == WithoutManifests(a) && GrownByChunks(b, d, cache)
    ensures NewPaths(WithoutManifests(a), WithoutManifests(d)) == NewPaths(b, d)
  {
  }

  class Syncer {
    const options: Options
    const fs: FileSystem
    var reused: bool
    var downloadedChunks: nat
    var downloadedBytes: int
    var seededChunks: nat
    var repairedChunks: nat
    var removedChunks: nat
    var removedBundles: nat
    /** The steps recorded when Run began and when it ended. */
    ghost var began: nat
    ghost var ended: nat

    constructor (options: Options, fs: FileSystem)
      ensures this.options == options && this.fs == fs
      ensures !reused && downloadedChunks == 0 && downloadedBytes == 0 && seededChunks == 0 && repairedChunks == 0
    {
      this.options, this.fs := options, fs;
      reused, downloadedChunks, downloadedBytes, seededChunks := false, 0, 0, 0;
      repairedChunks, removedChunks, removedBundles := 0, 0, 0;
    }

    /** Manifests, space and chunks. */
    method Fill() returns (manifests: Outcome<seq<ChunkManifest>>)
      requires fs.Valid()
      modifies this, fs
      ensures fs.Valid() && fs.Continues() && reused == old(reused)
      ensures VersionsAllow(old(fs.Now()), fs.c.root, fs.c.pin.inputs)
        <==> VersionsAllow(fs.Now(), fs.c.root, fs.c.pin.inputs)
      ensures manifests.Done? ==>
        && AreManifests(manifests.value, fs.c.pin.inputs.providers)
        && AllStored(fs.Now(), fs.c.root, fs.c.pin.inputs.providers)
        && AllPresent(fs.Now(), fs.c.cache, fs.c.pin.inputs.providers)
      ensures CanInstall(old(fs.Now()), fs.c, options) ==> manifests.Done?
      ensures manifests.Done? ==>
        downloadedChunks + seededChunks
        == old(downloadedChunks) + old(seededChunks) + |NewPaths(WithoutManifests(old(fs.Now())), WithoutManifests(fs.Now()))|
    {
      hide Follows, Allowed, Effect, PinValid, InodesSound, OnePin, VersionsAllow, AllObtainable, RoomFor, AllStored, AllPresent,
        AreManifests, SpaceEnough, ManifestsObtainable, ChunksObtainable, WithoutManifests, GrownByChunks, NewPaths;
      ghost var start := fs.Now();
      StartObtainable(start, options, fs.c);
      manifests := FetchManifests(fs, options);
      ManifestsElsewhere(start, fs.Now(), fs.c);
      if manifests.Failed? {
        return;
      }
      SameChunkPaths(start, fs.files, fs.c.cache);
      RoomKept(start, fs.files, fs.c, manifests.value, options.available);
      var err := EnsureSpace(fs.files, fs.c.cache, manifests.value, options.available);
      if err.Some? {
        return Failed(err.value);
      }
      ghost var fetched := fs.Now();
      FetchedObtainable(start, fetched, options, fs.c);
      var downloaded, bytes, seeded;
      err, downloaded, bytes, seeded := EnsureChunks(fs, options, manifests.value);
      downloadedChunks, downloadedBytes := downloadedChunks + downloaded, downloadedBytes + bytes;
      seededChunks := seededChunks + seeded;
      StoredThroughGrowth(fetched, fs.Now(), fs.c);
      NewBesideManifests(start, fetched, fs.Now(), fs.c.cache);
      if err.Some? {
        return Failed(err.value);
      }
    }

    method Install() returns (marker: Outcome<ReadyMarker>)
      requires fs.Valid() && (fs.c.production ==> VersionsAllow(fs.Now(), fs.c.root, fs.c.pin.inputs))
      modifies this, fs
      ensures fs.Valid() && fs.Continues() && reused == old(reused)
      ensures marker.Done? ==> Completed(fs.Now(), fs.c) && MarkerAt(fs.Now(), fs.c.root) == Some(marker.value)
      ensures marker.Done? ==> marker.value == MarkerFor(fs.c.pin, options.now)
      ensures CanInstall(old(fs.Now()), fs.c, options) ==> marker.Done?
    {
      hide Follows, Allowed, Effect, PinValid, InodesSound, OnePin, VersionsAllow, MarkerFor, Completed, AllObtainable, RoomFor,
        CanAssemble, AllDescribed, AllStored, AllPresent, AreManifests;
      ghost var begin, start := |fs.log|, fs.Now();
      LastView(fs);
      var manifests := Fill();
      if manifests.Failed? {
        return Failed(manifests.error);
      }
      ghost var filled := fs.Now();
      AssembleReady(fs, begin, start, options);
      var entries := AssembleAll(fs, manifests.value);
      if entries.Failed? {
        return Failed(entries.error);
      }
      StoredThroughBundles(filled, fs.Now(), fs.c);
      var written := Commit(fs, manifests.value, entries.value, options.now);
      return Done(written);
    }

    method Reuse(marker: ReadyMarker) returns (err: Option<Error>)
      requires fs.Valid() && MarkerAt(fs.Now(), fs.c.root) == Some(marker)
      modifies this, fs
      ensures fs.Valid() && fs.Continues() && OnlyCleans(fs.log, |old(fs.log)|)
      ensures reused == old(reused) && downloadedChunks == old(downloadedChunks)
      ensures downloadedBytes == old(downloadedBytes)
      ensures seededChunks == old(seededChunks) && repairedChunks == old(repairedChunks)
      ensures |marker.providers| <= |fs.c.pin.inputs.providers| ==> err.None?
      ensures err.None? ==>
        && fs.Now() == old(fs.Now()) - Garbage(fs.c, old(fs.Now()), marker) && Swept(fs.files, fs.c)
        && CountsRemoved(fs.c, old(fs.Now()), marker, removedChunks, removedBundles)
      ensures err.Some? ==> fs.Now() == old(fs.Now())
    {
      hide Follows, Allowed, Effect, PinValid, InodesSound, Garbage;
      var chunks, bundles;
      err, chunks, bundles := Clean(fs, marker);
      removedChunks, removedBundles := chunks, bundles;
    }

    /** Install, then clean up. */
    method InstallAndClean() returns (err: Option<Error>)
      requires fs.Valid() && (fs.c.production ==> VersionsAllow(fs.Now(), fs.c.root, fs.c.pin.inputs))
      modifies this, fs
      ensures fs.Valid() && fs.Continues() && reused == old(reused)
      ensures err.None? ==> Settles(fs.files, fs.c) && Completed(fs.Now(), fs.c)
      ensures err.None? ==> MarkerAt(fs.Now(), fs.c.root) == Some(MarkerFor(fs.c.pin, options.now))
      ensures err.None? ==> forall bytes | Whole(old(fs.Now()), fs.c, bytes) :: AllHeld(fs.Now(), fs.c, bytes)
      ensures CanInstall(old(fs.Now()), fs.c, options) ==> err.None?
    {
      hide Follows, Allowed, Effect, PinValid, InodesSound, OnePin, VersionsAllow, MarkerFor, Completed, Garbage, MarkerAt,
        CanInstall, AllHeld, Whole, Swept;
      ghost var begin, start := |fs.log|, fs.Now();
      LastView(fs);
      var marker := Install();
      if marker.Failed? {
        return Some(marker.error);
      }
      InstalledHeld(fs, begin, start);
      ghost var installed := fs.Now();
      MarkerLength(fs.c.pin, options.now);
      CompletedCleanedIn(fs, options.now);
      err := Reuse(marker.value);
      CleanedIsClean(fs.c, installed, fs.files, marker.value);
    }

    /**
     A whole synchronization. From any state: a success leaves the root complete
     and clean; where the pin's own marker was, it leaves every listed file there
     with its size, and a full one with its pinned bytes. From a state that
     interrupted runs for this pin leave: with its marker nothing is fetched and
     nothing fails; without it a good source and enough space suffice.
    */
    method Run() returns (err: Option<Error>)
      requires fs.Valid() && !reused && downloadedChunks == 0 && downloadedBytes == 0
      requires seededChunks == 0 && repairedChunks == 0
      modifies this, fs
      ensures fs.Valid() && fs.Continues() && began == |old(fs.log)| && ended == |fs.log|
      ensures err.None? ==> Settles(fs.files, fs.c)
      ensures err.None? && !reused ==>
        && Completed(fs.Now(), fs.c) && MarkerAt(fs.Now(), fs.c.root) == Some(MarkerFor(fs.c.pin, options.now))
      ensures reused ==>
        && downloadedChunks == 0 && downloadedBytes == 0 && seededChunks == 0 && repairedChunks == 0
        && OnlyCleans(fs.log, |old(fs.log)|)
      ensures reused <==> Reuses(old(fs.Now()), fs.c, options.full)
      ensures reused && Genuine(old(fs.Now()), fs.c) ==> err.None?
      ensures fs.c.production && !VersionsAllow(old(fs.Now()), fs.c.root, fs.c.pin.inputs) ==>
        err.Some? && Refused(old(fs.Now()), fs.c, err.value) && fs.files == old(fs.files) && fs.log == old(fs.log)
      ensures reused && err.None? ==>
        && fs.Now() == old(fs.Now()) - Garbage(fs.c, old(fs.Now()), MarkerAt(old(fs.Now()), fs.c.root).value)
        && CountsRemoved(
             fs.c, old(fs.Now()), MarkerAt(old(fs.Now()), fs.c.root).value, removedChunks, removedBundles)
      ensures OnePin(old(fs.Now()), fs.c) && ReadyPath(fs.c.root) in old(fs.Now()) ==>
        err.None? && reused && Completed(fs.Now(), fs.c)
      ensures CanInstall(old(fs.Now()), fs.c, options) ==> err.None? && Completed(fs.Now(), fs.c)
      ensures err.None? && Repairable(old(fs.Now()), fs.c) ==> AllHeld(fs.Now(), fs.c, options.full)
    {
      hide Follows, Allowed, Effect, PinValid, InodesSound, OnePin, VersionsAllow, MarkerFor, Completed, Garbage, MarkerAt,
        AllHeld, Whole, Swept, DamageOf, ReadyHolds, Coherent, AllObtainable, RoomFor, Refused, Genuine;
      ghost var from, start := |fs.log|, fs.Now();
      StartFacts(fs, options);
      err := CheckVersions(fs);
      if err.Some? {
        began, ended := from, |fs.log|;
        return;
      }
      var state := ReadyState(fs);
      if state.None? {
        err := InstallAndClean();
        began, ended := from, |fs.log|;
        return;
      }
      SameView(fs.files, fs.c, options.full);
      var bad := Check(fs.files, fs.c, state.value.manifests, options.full);
      if bad == Damage({}, {}) {
        reused := true;
        ReuseFacts(fs, options.full);
        err := Reuse(state.value.marker);
        CleanedIsClean(fs.c, start, fs.files, state.value.marker);
        began, ended := from, |fs.log|;
        return;
      }
      AllPinned(fs.Now(), fs.c);
      RepairFacts(fs, options.full);
      repairedChunks := Discard(fs, bad, options.full);
      DiscardKeepsActive(start, fs.c, bad);
      err := InstallAndClean();
      began, ended := from, |fs.log|;
    }
  }

  lemma LastView(fs: FileSystem)
    requires fs.Valid()
    ensures |fs.trace| == |fs.log| + 1 && fs.trace[|fs.log|] == fs.Now()
  {
  }

  lemma AssembleReady(fs: FileSystem, begin: nat, start: Files, options: Options)
    requires fs.Valid() && begin < |fs.trace| && fs.trace[begin] == start
    requires AllPresent(fs.Now(), fs.c.cache, fs.c.pin.inputs.providers)
    ensures CanInstall(start, fs.c, options) ==>
      forall record | record in fs.c.pin.inputs.providers :: CanAssemble(fs.Now(), fs.c.cache, record)
  {
    hide OnePin, AllObtainable, AllPresent, CanAssemble, PinValid, RoomFor;
    if CanInstall(start, fs.c, options) {
      OnePinTrace(fs.c, fs.trace, fs.log, begin, |fs.log|);
      OnePinCache(fs.Now(), fs.c);
      AllCanAssemble(start, fs.Now(), fs.c, options);
    }
  }

  lemma SameChunkPaths(a: Files, files: Files, cache: string)
    requires forall id :: ChunkPath(cache, id) in a <==> ChunkPath(cache, id) in View(files)
    ensures forall id :: ChunkPath(cache, id) in a <==> ChunkPath(cache, id) in files
  {
    forall id ensures ChunkPath(cache, id) in a <==> ChunkPath(cache, id) in files {
      assert ChunkPath(cache, id) in a <==> ChunkPath(cache, id) in View(files);
    }
  }
}
