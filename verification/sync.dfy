/**
 One synchronization (`internal/providersync/sync.go:112-387`).
*/
module Synchronizer {
  import opened Wrappers
  import opened Versions
  import opened VersionLaws
  import opened ProviderInputs
  import opened Bundles
  import opened Moves
  import opened InstallInvariants
  import opened InstallTraces
  import opened SyncFiles
  import opened ChunkInstall
  import opened BundleInstall
  import opened Assembly
  import opened InstallCheck
  import opened InstallCleanup

  ghost predicate AllDescribed(files: Files, root: string, records: seq<ProviderRecord>) {
    forall record | record in records :: Described(files, root, record)
  }

  ghost predicate AllPresent(files: Files, cache: string, records: seq<ProviderRecord>) {
    forall record | record in records :: ChunksPresent(files, cache, record)
  }

  /** ready.json names the pin, and everything it stands for is there. */
  ghost predicate Completed(files: Files, c: Context) {
    && ReadyPath(c.root) in files && MarkerOurs(files, c) && AllDescribed(files, c.root, c.pin.inputs.providers)
  }

  /** The marker is the one a completed run for this pin writes. */
  predicate Genuine(files: Files, c: Context) {
    && MarkerAt(files, c.root).Some?
    && MarkerAt(files, c.root).value == MarkerFor(c.pin, MarkerAt(files, c.root).value.completedAtMs)
  }

  // ---------------------------------------------------------------------
  // Reading the state.
  // ---------------------------------------------------------------------

  predicate IsDowngrade(pinned: ProviderRecord, installed: ActiveProvider) {
    pinned.providerId == installed.providerId && CompareVersions(pinned.providerVersion, installed.providerVersion) < 0
  }

  /** Pair (i, k) is the first, file by file and then pin by pin, that is no upgrade. */
  ghost predicate FirstConflict(records: seq<ProviderRecord>, active: seq<ActiveProvider>, i: int, k: int) {
    && 0 <= i < |active| && 0 <= k < |records| && !UpgradeAllowed(records[k], active[i])
    && (forall pinned, m | pinned in records && 0 <= m < i :: UpgradeAllowed(pinned, active[m]))
    && (forall n | 0 <= n < k :: UpgradeAllowed(records[n], active[i]))
  }

  /** What a run for the pin is refused with: the first conflict decides. */
  ghost predicate Refused(files: Files, c: Context, error: Error) {
    && c.production
    && if !ActiveReadable(files, c.root) then error == InputsInvalid
       else exists i, k ::
              && FirstConflict(c.pin.inputs.providers, ActiveEntries(files, c.root), i, k)
              && error == (if IsDowngrade(c.pin.inputs.providers[k], ActiveEntries(files, c.root)[i]) then Downgrade
                           else Rebuilt)
  }

  method CheckVersions(fs: FileSystem) returns (err: Option<Error>)
    ensures err.None? <==> !fs.c.production || VersionsAllow(View(fs.files), fs.c.root, fs.c.pin.inputs)
    ensures err.Some? ==> Refused(View(fs.files), fs.c, err.value)
  {
    hide UpgradeAllowed, IsDowngrade;
    if !fs.c.production {
      return None;
    }
    var path := ActivePath(fs.c.root);
    assert path in fs.files <==> path in View(fs.files);
    if path !in fs.files {
      return None;
    }
    if !fs.files[path].File? || !fs.files[path].content.decoded.ActiveText? {
      return Some(InputsInvalid);
    }
    var active, records, i := fs.files[path].content.decoded.active.providers, fs.c.pin.inputs.providers, 0;
    while i < |active|
      invariant i <= |active|
      invariant forall pinned, k | pinned in records && 0 <= k < i :: UpgradeAllowed(pinned, active[k])
    {
      ghost var k;
      err, k := CheckUpgrade(records, active[i]);
      if err.Some? {
        assert active[i] in active && records[k] in records;
        assert FirstConflict(records, ActiveEntries(View(fs.files), fs.c.root), i, k);
        return;
      }
      i := i + 1;
    }
    return None;
  }

  method CheckUpgrade(records: seq<ProviderRecord>, installed: ActiveProvider)
    returns (err: Option<Error>, ghost k: nat)
    ensures err.None? ==> forall pinned | pinned in records :: UpgradeAllowed(pinned, installed)
    ensures err.Some? ==>
      && k < |records| && !UpgradeAllowed(records[k], installed)
      && (forall n | 0 <= n < k :: UpgradeAllowed(records[n], installed))
      && err.value == if IsDowngrade(records[k], installed) then Downgrade else Rebuilt
  {
    hide CompareVersions;
    var i := 0;
    while i < |records|
      invariant i <= |records| && forall n | 0 <= n < i :: UpgradeAllowed(records[n], installed)
    {
      var pinned := records[i];
      if pinned.providerId == installed.providerId {
        var order := CompareVersions(pinned.providerVersion, installed.providerVersion);
        if order < 0 {
          return Some(Downgrade), i;
        }
        if order == 0 && pinned.bundleSha256 != installed.bundleSha256 {
          return Some(Rebuilt), i;
        }
      }
      i := i + 1;
    }
    return None, 0;
  }

  datatype Ready = Ready(marker: ReadyMarker, manifests: seq<ChunkManifest>)

  ghost predicate ReadyHolds(files: Files, c: Context) {
    && MarkerAt(files, c.root).Some? && MarkerAt(files, c.root).value.inputsSha256 == c.pin.digest
    && AllStored(files, c.root, c.pin.inputs.providers)
  }

  method ReadyState(fs: FileSystem) returns (state: Option<Ready>)
    ensures state.Some? <==> ReadyHolds(View(fs.files), fs.c)
    ensures state.Some? ==>
      && MarkerAt(View(fs.files), fs.c.root) == Some(state.value.marker)
      && AreManifests(state.value.manifests, fs.c.pin.inputs.providers)
  {
    hide Pinned, AllStored, AreManifests;
    var path := ReadyPath(fs.c.root);
    assert path in fs.files <==> path in View(fs.files);
    if path !in fs.files || !fs.files[path].File? || !fs.files[path].content.decoded.MarkerText? {
      return None;
    }
    var marker := fs.files[path].content.decoded.marker;
    if marker.schemaVersion != 1 || marker.inputsSha256 != fs.c.pin.digest {
      return None;
    }
    var manifests := StoredManifests(fs);
    if manifests.None? {
      return None;
    }
    return Some(Ready(marker, manifests.value));
  }

  method StoredManifests(fs: FileSystem) returns (stored: Option<seq<ChunkManifest>>)
    ensures stored.Some? <==> AllStored(View(fs.files), fs.c.root, fs.c.pin.inputs.providers)
    ensures stored.Some? ==> AreManifests(stored.value, fs.c.pin.inputs.providers)
  {
    hide Pinned, View;
    var records, manifests, i := fs.c.pin.inputs.providers, [], 0;
    while i < |records|
      invariant i <= |records| && AllStored(View(fs.files), fs.c.root, records[..i])
      invariant AreManifests(manifests, records[..i])
    {
      var path := ManifestPath(fs.c.root, records[i]);
      SettledSeen(fs.files, path);
      StoredDigest(View(fs.files), fs.c.root, records[i]);
      if path !in fs.files || !fs.files[path].File?
        || OfContent(fs.files[path].content) != records[i].chunkManifest.sha256
      {
        NotStored(View(fs.files), fs.c.root, records, i);
        return None;
      }
      PinnedByBytes(records[i], fs.files[path].content);
      var manifest := ParseManifest(fs.files[path].content, records[i]);
      if manifest.None? {
        NotStored(View(fs.files), fs.c.root, records, i);
        return None;
      }
      manifests := manifests + [manifest.value];
      i := i + 1;
    }
    assert records[..i] == records;
    return Some(manifests);
  }

  lemma SettledSeen(files: Files, path: Path)
    requires Settled(path)
    ensures path in files <==> path in View(files)
    ensures path in files ==> files[path] == View(files)[path]
  {
  }

  lemma StoredDigest(files: Files, root: string, record: ProviderRecord)
    ensures ManifestStored(files, root, record) ==>
      && ManifestPath(root, record) in files && files[ManifestPath(root, record)].File?
      && OfContent(files[ManifestPath(root, record)].content) == record.chunkManifest.sha256
  {
  }

  lemma NotStored(files: Files, root: string, records: seq<ProviderRecord>, i: nat)
    requires i < |records| && !ManifestStored(files, root, records[i])
    ensures !AllStored(files, root, records)
  {
  }

  // ---------------------------------------------------------------------
  // install.
  // ---------------------------------------------------------------------

  ghost predicate ChunksObtainable(files: Files, options: Options, c: Context) {
    forall record | record in c.pin.inputs.providers ::
      && PathsFit(BundleFiles(record))
      && forall chunk | chunk in ChunksOf(record) :: ChunkObtainable(files, options, c.cache, chunk)
  }

  lemma RecordObtainable(a: Files, b: Files, options: Options, c: Context, i: nat)
    requires i < |c.pin.inputs.providers| && Pinned(c.pin.inputs.providers[i]) && GrownByChunks(a, b, c.cache)
    requires forall path | path in b :: Settled(path)
    ensures ChunksObtainable(a, options, c) ==>
      && PathsFit(BundleFiles(c.pin.inputs.providers[i]))
      && forall chunk | chunk in ChunksOf(c.pin.inputs.providers[i]) :: ChunkObtainable(b, options, c.cache, chunk)
  {
    hide PathsFit, ChunkObtainable, Pinned;
    var record := c.pin.inputs.providers[i];
    assert View(b) == b;
    if ChunksObtainable(a, options, c) {
      assert record in c.pin.inputs.providers;
      forall chunk | chunk in ChunksOf(record) ensures ChunkObtainable(b, options, c.cache, chunk) {
        StillObtainable(a, b, options, c.cache, record, chunk);
      }
    }
  }

  /** Manifests do not matter to chunks. */
  lemma ObtainableBesideManifests(a: Files, b: Files, options: Options, c: Context)
    requires WithoutManifests(a) == WithoutManifests(b)
    requires forall record | record in c.pin.inputs.providers :: Pinned(record)
    ensures ChunksObtainable(a, options, c) ==> ChunksObtainable(b, options, c)
  {
    hide PathsFit, Pinned, ChunkServed;
    if ChunksObtainable(a, options, c) {
      forall record, chunk | record in c.pin.inputs.providers && chunk in ChunksOf(record)
        ensures ChunkObtainable(b, options, c.cache, chunk)
      {
        assert ChunkObtainable(a, options, c.cache, chunk);
        PinnedChunkFiles(record, chunk);
        SameSeedsBeside(a, b, options, chunk);
        ElsewhereKept(a, b, ChunkPath(c.cache, chunk.chunkId));
      }
    }
  }

  lemma SameSeedsBeside(a: Files, b: Files, options: Options, chunk: Chunk)
    requires WithoutManifests(a) == WithoutManifests(b) && chunk.files != []
    ensures Seedable(a, options, chunk) ==> Seedable(b, options, chunk)
  {
    hide WithoutManifests;
    if s, path :| 0 <= s < |options.seeds| && SeedHolds(a, options.seeds[s], chunk, path) {
      assert Holds(TreeAt(a, path), chunk.files[0]);
      ElsewhereKept(a, b, path);
      assert SeedHolds(b, options.seeds[s], chunk, path);
    }
  }

  method EnsureChunks(fs: FileSystem, options: Options, manifests: seq<ChunkManifest>)
    returns (err: Option<Error>, downloaded: nat, bytes: int, seeded: nat)
    requires fs.Valid() && AreManifests(manifests, fs.c.pin.inputs.providers)
    modifies fs`files, fs`inodes, fs`trace, fs`log
    ensures fs.Valid() && fs.Continues() && GrownByChunks(old(fs.Now()), fs.Now(), fs.c.cache)
    ensures err.None? ==> AllPresent(fs.Now(), fs.c.cache, fs.c.pin.inputs.providers)
    ensures ChunksObtainable(old(fs.Now()), options, fs.c) ==> err.None?
    ensures err.None? ==> downloaded + seeded == |NewPaths(old(fs.Now()), fs.Now())|
  {
    hide Follows, Allowed, Effect, PinValid, InodesSound, Pinned, ChunkServed, ChunksPresent, Describable, PathsFit, AssetServed,
      GrownByChunks, NewPaths;
    NothingAdded(fs.Now(), fs.c.cache);
    var records, i := fs.c.pin.inputs.providers, 0;
    downloaded, bytes, seeded := 0, 0, 0;
    while i < |records|
      invariant i <= |records| && fs.Valid() && fs.Continues()
      invariant GrownByChunks(old(fs.Now()), fs.Now(), fs.c.cache)
      invariant forall k | 0 <= k < i :: ChunksPresent(fs.Now(), fs.c.cache, records[k])
      invariant downloaded + seeded == |NewPaths(old(fs.Now()), fs.Now())|
    {
      ghost var before := fs.Now();
      RecordObtainable(old(fs.Now()), before, options, fs.c, i);
      var count, size, linked;
      err, count, size, linked := EnsureRecordChunks(fs, options, records[i], manifests[i]);
      GrownTwice(old(fs.Now()), before, fs.Now(), fs.c.cache);
      GrownKeys(old(fs.Now()), before, fs.c.cache);
      GrownKeys(before, fs.Now(), fs.c.cache);
      NewTwice(old(fs.Now()), before, fs.Now());
      if err.Some? {
        return;
      }
      forall k | 0 <= k < i ensures ChunksPresent(fs.Now(), fs.c.cache, records[k]) {
        PresentStays(before, fs.Now(), fs.c.cache, records[k]);
      }
      downloaded, bytes, seeded := downloaded + count, bytes + size, seeded + linked;
      i := i + 1;
    }
    err := None;
  }

  lemma GrownKeys(a: Files, b: Files, cache: string)
    requires GrownByChunks(a, b, cache)
    ensures a.Keys <= b.Keys
  {
  }

  lemma NewTwice(a: Files, b: Files, d: Files)
    requires a.Keys <= b.Keys <= d.Keys
    ensures |NewPaths(a, d)| == |NewPaths(a, b)| + |NewPaths(b, d)|
  {
    assert NewPaths(a, d) == NewPaths(a, b) + NewPaths(b, d);
  }

  lemma GrownTwice(a: Files, b: Files, d: Files, cache: string)
    requires GrownByChunks(a, b, cache) && GrownByChunks(b, d, cache)
    ensures GrownByChunks(a, d, cache)
  {
  }

  /** Everything but the bundles of these records is as before. */
  ghost predicate OnlyBundles(a: Files, b: Files, root: string) {
    && (forall path | path in a && !(path.directory.Installed? && path.directory.base == root) ::
          path in b && b[path] == a[path])
    && (forall path | path in b && !(path.directory.Installed? && path.directory.base == root) :: path in a)
  }

  lemma OneBundle(a: Files, b: Files, d: Files, root: string, record: ProviderRecord)
    requires OnlyBundles(a, b, root)
    requires d - {BundlePath(root, record)} == b - {BundlePath(root, record)}
    ensures OnlyBundles(a, d, root)
  {
    forall path | path != BundlePath(root, record)
      ensures path in b <==> path in d
      ensures path in b ==> b[path] == d[path]
    {
      SameElsewhere(b, d, BundlePath(root, record), path);
    }
  }

  lemma DescribedStays(c: Context, a: Files, b: Files, record: ProviderRecord, other: ProviderRecord)
    requires PinValid(c.pin) && record in c.pin.inputs.providers && other in c.pin.inputs.providers
    requires record != other && Described(a, c.root, record)
    requires b - {BundlePath(c.root, other)} == a - {BundlePath(c.root, other)}
    ensures Described(b, c.root, record)
  {
    OwnPaths(c, record, other);
    SameElsewhere(a, b, BundlePath(c.root, other), BundlePath(c.root, record));
  }

  lemma CachedWithBundles(a: Files, b: Files, root: string, cache: string, record: ProviderRecord)
    requires OnlyBundles(a, b, root) && CanAssemble(a, cache, record)
    ensures CanAssemble(b, cache, record)
  {
    hide Holds, PathsFit, Describable;
    forall chunk | chunk in ChunksOf(record)
      ensures TreeAt(a, ChunkPath(cache, chunk.chunkId)) == TreeAt(b, ChunkPath(cache, chunk.chunkId))
    {
      assert ChunkPath(cache, chunk.chunkId) in a <==> ChunkPath(cache, chunk.chunkId) in b;
    }
  }

  lemma DistinctRecords(c: Context, i: nat, j: nat)
    requires PinValid(c.pin) && i < j < |c.pin.inputs.providers|
    ensures c.pin.inputs.providers[i] != c.pin.inputs.providers[j]
  {
  }

  method AssembleAll(fs: FileSystem, manifests: seq<ChunkManifest>) returns (entries: Outcome<seq<ActiveProvider>>)
    requires fs.Valid() && AreManifests(manifests, fs.c.pin.inputs.providers)
    modifies fs`files, fs`inodes, fs`trace, fs`log
    ensures fs.Valid() && fs.Continues() && OnlyBundles(old(fs.Now()), fs.Now(), fs.c.root)
    ensures entries.Done? ==> AllDescribed(fs.Now(), fs.c.root, fs.c.pin.inputs.providers)
    ensures entries.Done? ==> entries.value == EntriesOf(fs.c.pin.inputs.providers)
    ensures (forall record | record in fs.c.pin.inputs.providers :: CanAssemble(old(fs.Now()), fs.c.cache, record))
      ==> entries.Done?
  {
    hide Follows, Allowed, Effect, PinValid, InodesSound, Pinned, CanAssemble, Described, EntryOf, OnlyBundles;
    var records, list, i := fs.c.pin.inputs.providers, [], 0;
    SameBundles(fs.Now(), fs.c.root);
    while i < |records|
      invariant i <= |records| && fs.Valid() && fs.Continues()
      invariant OnlyBundles(old(fs.Now()), fs.Now(), fs.c.root)
      invariant forall k | 0 <= k < i :: Described(fs.Now(), fs.c.root, records[k])
      invariant |list| == i && forall k | 0 <= k < i :: list[k] == EntryOf(records[k])
    {
      ghost var before := fs.Now();
      assert records[i] in records;
      if CanAssemble(old(fs.Now()), fs.c.cache, records[i]) {
        CachedWithBundles(old(fs.Now()), before, fs.c.root, fs.c.cache, records[i]);
      }
      var entry := Assemble(fs, records[i], manifests[i]);
      OneBundle(old(fs.Now()), before, fs.Now(), fs.c.root, records[i]);
      if entry.Failed? {
        return Failed(entry.error);
      }
      forall k | 0 <= k < i ensures Described(fs.Now(), fs.c.root, records[k]) {
        DistinctRecords(fs.c, k, i);
        DescribedStays(fs.c, before, fs.Now(), records[k], records[i]);
      }
      list := list + [entry.value];
      i := i + 1;
    }
    assert list == EntriesOf(records);
    return Done(list);
  }

  lemma SameBundles(files: Files, root: string)
    ensures OnlyBundles(files, files, root)
  {
  }

  // ---------------------------------------------------------------------
  // Commit: active.json, then ready.json.
  // ---------------------------------------------------------------------

  ghost predicate Publishable(files: Files, c: Context) {
    && AllStored(files, c.root, c.pin.inputs.providers) && AllPresent(files, c.cache, c.pin.inputs.providers)
    && AllDescribed(files, c.root, c.pin.inputs.providers)
    && (c.production ==> VersionsAllow(files, c.root, c.pin.inputs))
  }

  lemma ActiveAllowed(c: Context, files: Files)
    requires Publishable(files, c)
    ensures Allowed(c, files, WriteActive)
    ensures Effect(c, files, WriteActive) == files[ActivePath(c.root) := File(ActiveFor(c.pin))]
  {
    hide Described, VersionsAllow, ActiveFor, Pinned;
    var records := c.pin.inputs.providers;
    forall record | record in records ensures Pinned(record) && Described(files, c.root, record) {
      var i :| 0 <= i < |records| && records[i] == record;
      assert ManifestStored(files, c.root, records[i]);
    }
  }

  lemma ReadyAllowed(c: Context, files: Files, time: int)
    requires Publishable(files, c)
    ensures var next := files[ActivePath(c.root) := File(ActiveFor(c.pin))];
            && Allowed(c, next, WriteReady(time))
            && Effect(c, next, WriteReady(time))
               == next[ReadyPath(c.root) := File(Encoded(MarkerText(MarkerFor(c.pin, time))))]
            && Completed(Effect(c, next, WriteReady(time)), c)
            && MarkerAt(Effect(c, next, WriteReady(time)), c.root) == Some(MarkerFor(c.pin, time))
  {
    hide Describe, VersionsAllow, ActiveFor, Pinned;
    PathsDiffer();
    var records := c.pin.inputs.providers;
    var next := files[ActivePath(c.root) := File(ActiveFor(c.pin))];
    forall record | record in records
      ensures ManifestStored(next, c.root, record) && ChunksPresent(next, c.cache, record)
              && Described(next, c.root, record)
    {
      var i :| 0 <= i < |records| && records[i] == record;
      assert ManifestStored(files, c.root, records[i]);
      assert ChunksPresent(files, c.cache, record) && Described(files, c.root, record);
    }
    WrittenReady(c, next, time);
    forall record | record in records ensures Described(Effect(c, next, WriteReady(time)), c.root, record) {
      assert Described(next, c.root, record);
    }
  }

  method BuildMarker(pin: Pin, manifests: seq<ChunkManifest>, now: int) returns (marker: ReadyMarker)
    requires AreManifests(manifests, pin.inputs.providers)
    ensures marker == MarkerFor(pin, now)
  {
    hide Pinned;
    var records, providers, i := pin.inputs.providers, [], 0;
    while i < |records|
      invariant i <= |records| && |providers| == i
      invariant forall k | 0 <= k < i :: providers[k] == ReadyFor(records[k])
    {
      var chunks: set<Digest>, list, j := {}, manifests[i].chunks, 0;
      while j < |list|
        invariant j <= |list| && chunks == set k | 0 <= k < j :: list[k].chunkId
      {
        chunks := chunks + {list[j].chunkId};
        j := j + 1;
      }
      assert chunks == set chunk | chunk in list :: chunk.chunkId;
      providers := providers + [ReadyProvider(
        records[i].providerId, records[i].providerVersion, records[i].bundleSha256, chunks)];
      i := i + 1;
    }
    assert providers == ReadyProviders(records);
    return ReadyMarker(1, pin.digest, providers, now);
  }

  /** active.json is replaced before the marker that vouches for it appears. */
  method Commit(
    fs: FileSystem, manifests: seq<ChunkManifest>, entries: seq<ActiveProvider>, now: int)
    returns (marker: ReadyMarker)
    requires fs.Valid() && Publishable(fs.Now(), fs.c)
    requires AreManifests(manifests, fs.c.pin.inputs.providers) && entries == EntriesOf(fs.c.pin.inputs.providers)
    modifies fs`files, fs`trace, fs`log
    ensures fs.Valid() && fs.Continues()
    ensures Completed(fs.Now(), fs.c) && MarkerAt(fs.Now(), fs.c.root) == Some(marker)
    ensures marker == MarkerFor(fs.c.pin, now)
  {
    hide Follows, Allowed, Effect, PinValid, InodesSound, Publishable, Completed, MarkerFor, ActiveContent, AreManifests;
    ActiveAllowed(fs.c, fs.Now());
    ReadyAllowed(fs.c, fs.Now(), now);
    fs.WriteAtomic(Base(fs.c.root), "active.json", ActiveContent(fs.c.pin.inputs, entries), WriteActive);
    marker := BuildMarker(fs.c.pin, manifests, now);
    fs.WriteAtomic(Base(fs.c.root), "ready.json", Encoded(MarkerText(marker)), WriteReady(now));
  }

  // ---------------------------------------------------------------------
  // What one phase leaves for the next.
  // ---------------------------------------------------------------------

  lemma ActiveElsewhere(a: Files, b: Files, root: string, inputs: Inputs)
    requires ActivePath(root) in a <==> ActivePath(root) in b
    requires ActivePath(root) in a ==> a[ActivePath(root)] == b[ActivePath(root)]
    ensures VersionsAllow(a, root, inputs) <==> VersionsAllow(b, root, inputs)
  {
    hide UpgradeAllowed;
  }

  lemma StoredThroughGrowth(a: Files, b: Files, c: Context)
    requires GrownByChunks(a, b, c.cache)
    ensures AllStored(a, c.root, c.pin.inputs.providers) ==> AllStored(b, c.root, c.pin.inputs.providers)
    ensures VersionsAllow(a, c.root, c.pin.inputs) <==> VersionsAllow(b, c.root, c.pin.inputs)
  {
    hide Pinned;
    ActiveElsewhere(a, b, c.root, c.pin.inputs);
    var records := c.pin.inputs.providers;
    if AllStored(a, c.root, records) {
      forall i | 0 <= i < |records| ensures ManifestStored(b, c.root, records[i]) {
        assert ManifestStored(a, c.root, records[i]);
      }
    }
  }

  lemma StoredThroughBundles(a: Files, b: Files, c: Context)
    requires OnlyBundles(a, b, c.root)
    ensures AllStored(a, c.root, c.pin.inputs.providers) ==> AllStored(b, c.root, c.pin.inputs.providers)
    ensures AllPresent(a, c.cache, c.pin.inputs.providers) ==> AllPresent(b, c.cache, c.pin.inputs.providers)
    ensures VersionsAllow(a, c.root, c.pin.inputs) <==> VersionsAllow(b, c.root, c.pin.inputs)
  {
    hide Pinned;
    ActiveElsewhere(a, b, c.root, c.pin.inputs);
    var records := c.pin.inputs.providers;
    if AllStored(a, c.root, records) {
      forall i | 0 <= i < |records| ensures ManifestStored(b, c.root, records[i]) {
        assert ManifestStored(a, c.root, records[i]);
      }
    }
    if AllPresent(a, c.cache, records) {
      forall record | record in records ensures ChunksPresent(b, c.cache, record) {
        assert ChunksPresent(a, c.cache, record);
      }
    }
  }

  lemma ManifestsElsewhere(a: Files, b: Files, c: Context)
    requires WithoutManifests(a) == WithoutManifests(b)
    ensures VersionsAllow(a, c.root, c.pin.inputs) <==> VersionsAllow(b, c.root, c.pin.inputs)
    ensures forall id :: ChunkPath(c.cache, id) in a <==> ChunkPath(c.cache, id) in b
  {
    ElsewhereKept(a, b, ActivePath(c.root));
    ActiveElsewhere(a, b, c.root, c.pin.inputs);
    forall id ensures ChunkPath(c.cache, id) in a <==> ChunkPath(c.cache, id) in b {
      ElsewhereKept(a, b, ChunkPath(c.cache, id));
    }
  }

  function ManifestsOf(records: seq<ProviderRecord>): (r: seq<ChunkManifest>)
    ensures |r| == |records| && forall i | 0 <= i < |records| :: r[i] == ManifestOf(records[i])
  {
    seq(|records|, i requires 0 <= i < |records| => ManifestOf(records[i]))
  }

  /** Room for the archives and files of the chunks the cache lacks. */
  ghost predicate RoomFor(files: Files, c: Context, available: int) {
    SpaceEnough(files, c.cache, ManifestsOf(c.pin.inputs.providers), available)
  }

  lemma {:induction false} SameChunkSpace(a: Files, b: Files, cache: string, chunks: seq<Chunk>)
    requires forall id :: ChunkPath(cache, id) in a <==> ChunkPath(cache, id) in b
    ensures ChunkSpace(a, cache, chunks) == ChunkSpace(b, cache, chunks)
  {
    if chunks != [] {
      SameChunkSpace(a, b, cache, chunks[..|chunks| - 1]);
    }
  }

  lemma {:induction false} SameSpace(a: Files, b: Files, cache: string, manifests: seq<ChunkManifest>)
    requires forall id :: ChunkPath(cache, id) in a <==> ChunkPath(cache, id) in b
    ensures SpaceNeeded(a, cache, manifests) == SpaceNeeded(b, cache, manifests)
  {
    if manifests != [] {
      SameSpace(a, b, cache, manifests[..|manifests| - 1]);
      SameChunkSpace(a, b, cache, manifests[|manifests| - 1].chunks);
    }
  }

  lemma RoomKept(a: Files, b: Files, c: Context, manifests: seq<ChunkManifest>, available: int)
    requires AreManifests(manifests, c.pin.inputs.providers)
    requires forall id :: ChunkPath(c.cache, id) in a <==> ChunkPath(c.cache, id) in b
    ensures RoomFor(a, c, available) <==> SpaceEnough(b, c.cache, manifests, available)
  {
    assert manifests == ManifestsOf(c.pin.inputs.providers);
    SameSpace(a, b, c.cache, manifests);
  }

  lemma SoundCanAssemble(files: Files, c: Context, record: ProviderRecord)
    requires CacheSound(files, c.cache) && ChunksPresent(files, c.cache, record)
    requires Pinned(record) && Describable(record, Listed(record)) && PathsFit(BundleFiles(record))
    ensures CanAssemble(files, c.cache, record)
  {
    hide PathsFit, Describable, Pinned;
    forall chunk, file | chunk in ChunksOf(record) && file in chunk.files
      ensures Holds(TreeAt(files, ChunkPath(c.cache, chunk.chunkId)), file)
    {
      PinnedChunk(record, chunk);
      var path := ChunkPath(c.cache, chunk.chunkId);
      assert path in files && ChunkSound(files[path], chunk.chunkId);
      var k :| 0 <= k < |chunk.files| && chunk.files[k] == file;
      assert Holds(files[path].tree, chunk.files[k]);
    }
  }

  lemma AllCanAssemble(start: Files, files: Files, c: Context, options: Options)
    requires CacheSound(files, c.cache) && AllPresent(files, c.cache, c.pin.inputs.providers)
    requires AllObtainable(start, options, c)
    ensures forall record | record in c.pin.inputs.providers :: CanAssemble(files, c.cache, record)
  {
    hide CacheSound, ChunksPresent, CanAssemble, Pinned, Describable, PathsFit, ManifestObtainable, ChunkObtainable;
    forall record | record in c.pin.inputs.providers ensures CanAssemble(files, c.cache, record) {
      assert Obtainable(start, options, c.cache, record);
      SoundCanAssemble(files, c, record);
    }
  }

  lemma ObtainableParts(files: Files, options: Options, c: Context)
    requires AllObtainable(files, options, c)
    ensures ManifestsObtainable(files, options, c, 0) && ChunksObtainable(files, options, c)
    ensures forall record | record in c.pin.inputs.providers :: Pinned(record)
  {
    hide Pinned, Describable, PathsFit, ManifestObtainable, ChunkObtainable;
    var records := c.pin.inputs.providers;
    forall i | 0 <= i < |records|
      ensures Pinned(records[i]) && ManifestObtainable(files, options, c.cache, records[i].chunkManifest)
    {
      assert Obtainable(files, options, c.cache, records[i]);
    }
    forall record | record in records
      ensures Pinned(record) && PathsFit(BundleFiles(record))
      ensures forall chunk | chunk in ChunksOf(record) :: ChunkObtainable(files, options, c.cache, chunk)
    {
      assert Obtainable(files, options, c.cache, record);
    }
  }

  lemma OnePinCache(files: Files, c: Context)
    requires OnePin(files, c)
    ensures CacheSound(files, c.cache) && ActiveOurs(files, c)
  {
  }
}
