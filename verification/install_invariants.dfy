/**
 What every step of a synchronization keeps, whatever is installed and wherever
 the run is cut off.
*/
module InstallInvariants {
  import opened Wrappers
  import opened ProviderInputs
  import opened Bundles
  import opened Moves

  // ---------------------------------------------------------------------
  // Any pin: a published chunk directory is complete.
  // ---------------------------------------------------------------------

  predicate ChunkSound(entry: Entry, id: Digest) {
    id.OfIdentity? && entry.Folder? && Exact(entry.tree, id.files)
  }

  ghost predicate CacheSound(files: Files, cache: string) {
    forall id | ChunkPath(cache, id) in files :: ChunkSound(files[ChunkPath(cache, id)], id)
  }

  lemma PinnedChunk(record: ProviderRecord, chunk: Chunk)
    requires Pinned(record) && chunk in ChunksOf(record)
    ensures ChunkValid(chunk, record.providerId) && chunk.chunkId == OfIdentity(chunk.files)
  {
  }

  lemma PinnedFiles(record: ProviderRecord)
    requires Pinned(record)
    ensures DistinctPaths(BundleFiles(record)) && ChunksOf(record) != []
    ensures |BundleFiles(record)| == record.fileCount
  {
  }

  lemma CacheSoundKept(c: Context, a: Files, move: Move, cache: string)
    requires CacheSound(a, cache) && Allowed(c, a, move)
    ensures CacheSound(Effect(c, a, move), cache)
  {
    hide Exact, Linked, VersionsAllow, Pinned, Describe, ChunkDamaged, Unreferenced, MarkerAt, ActiveFor, MarkerFor;
    var b := Effect(c, a, move);
    if move.PublishChunk? {
      PinnedChunk(move.record, move.chunk);
    }
    forall id | ChunkPath(cache, id) in b ensures ChunkSound(b[ChunkPath(cache, id)], id) {
      if ChunkPath(cache, id) in a && a[ChunkPath(cache, id)] == b[ChunkPath(cache, id)] {
        assert ChunkSound(a[ChunkPath(cache, id)], id);
      }
    }
  }

  // ---------------------------------------------------------------------
  // One pin: nothing in the root but what the pin calls for.
  // ---------------------------------------------------------------------

  ghost predicate BundleSound(files: Files, root: string, record: ProviderRecord) {
    BundlePath(root, record) in files ==>
      && Pinned(record) && files[BundlePath(root, record)].Folder?
      && Exact(files[BundlePath(root, record)].tree, BundleFiles(record))
      && Describable(record, Listed(record))
  }

  ghost predicate BundlesSound(files: Files, c: Context) {
    forall record | record in c.pin.inputs.providers :: BundleSound(files, c.root, record)
  }

  ghost predicate ActiveOurs(files: Files, c: Context) {
    ActivePath(c.root) in files ==> Stored(files, ActivePath(c.root), ActiveFor(c.pin))
  }

  ghost predicate RecordInstalled(files: Files, c: Context, record: ProviderRecord) {
    && ManifestStored(files, c.root, record) && ChunksPresent(files, c.cache, record)
    && BundlePath(c.root, record) in files
  }

  ghost predicate MarkerOurs(files: Files, c: Context) {
    ReadyPath(c.root) in files ==>
      && Stored(files, ActivePath(c.root), ActiveFor(c.pin))
      && (exists time :: Stored(files, ReadyPath(c.root), Encoded(MarkerText(MarkerFor(c.pin, time)))))
      && forall record | record in c.pin.inputs.providers :: RecordInstalled(files, c, record)
  }

  ghost predicate OnePin(files: Files, c: Context) {
    CacheSound(files, c.cache) && BundlesSound(files, c) && ActiveOurs(files, c) && MarkerOurs(files, c)
  }

  lemma LinkedExact(files: Files, cache: string, record: ProviderRecord, tree: Tree)
    requires CacheSound(files, cache) && Pinned(record) && Linked(files, cache, record, tree)
    ensures Exact(tree, BundleFiles(record))
  {
    var all := BundleFiles(record);
    forall i | 0 <= i < |all| ensures Holds(tree, all[i]) {
      ListedInChunk(ChunksOf(record), all[i]);
      var chunk :| chunk in ChunksOf(record) && all[i] in chunk.files;
      LinkedHolds(files, cache, record, tree, chunk, all[i]);
    }
  }

  lemma LinkedHolds(
    files: Files, cache: string, record: ProviderRecord, tree: Tree, chunk: Chunk, file: ChunkFile)
    requires CacheSound(files, cache) && Pinned(record) && Linked(files, cache, record, tree)
    requires chunk in ChunksOf(record) && file in chunk.files
    ensures Holds(tree, file)
  {
    PinnedChunk(record, chunk);
    assert SameNode(files, cache, chunk, file, tree);
    var path := ChunkPath(cache, chunk.chunkId);
    assert path in files;
    assert ChunkSound(files[path], chunk.chunkId);
    var k :| 0 <= k < |chunk.files| && chunk.files[k] == file;
    assert Holds(files[path].tree, chunk.files[k]);
  }

  /** Records of a valid pin own their paths. */
  lemma OwnPaths(c: Context, a: ProviderRecord, b: ProviderRecord)
    requires PinValid(c.pin) && a in c.pin.inputs.providers && b in c.pin.inputs.providers
    ensures BundlePath(c.root, a) == BundlePath(c.root, b) ==> a == b
    ensures forall base :: ManifestPath(base, a) == ManifestPath(base, b) ==> a == b
  {
    AssetsDistinct(a, b);
  }

  lemma BundlesSoundKept(c: Context, a: Files, move: Move)
    requires PinValid(c.pin) && OnePin(a, c) && Allowed(c, a, move)
    ensures BundlesSound(Effect(c, a, move), c)
  {
    hide Exact, Linked, VersionsAllow, Pinned, Describe, ChunkDamaged, Unreferenced, MarkerAt, ActiveFor, MarkerFor,
      CacheSound, ActiveOurs, MarkerOurs, Describable, PinValid;
    var b := Effect(c, a, move);
    forall record | record in c.pin.inputs.providers ensures BundleSound(b, c.root, record) {
      assert BundleSound(a, c.root, record);
      if move.PublishBundle? {
        OwnPaths(c, record, move.record);
        LinkedExact(a, c.cache, move.record, move.tree);
        ExactDescribed(move.record, move.tree);
      }
    }
  }

  lemma ExactDescribed(record: ProviderRecord, tree: Tree)
    requires Pinned(record) && Exact(tree, BundleFiles(record))
    ensures Describe(tree, record, Listed(record)).Done? <==> Describable(record, Listed(record))
    ensures Describable(record, Listed(record)) ==> Describe(tree, record, Listed(record)) == Done(EntryOf(record))
  {
    PinnedFiles(record);
    DescribeExactly(tree, record, BundleFiles(record));
  }

  lemma ActiveOursKept(c: Context, a: Files, move: Move)
    requires OnePin(a, c) && Allowed(c, a, move)
    ensures ActiveOurs(Effect(c, a, move), c)
  {
    hide Exact, Linked, VersionsAllow, Pinned, Describe, ChunkDamaged, MarkerAt, ActiveFor, MarkerFor,
      CacheSound, BundlesSound, MarkerOurs, Unreferenced;
    PathsDiffer();
    if move.Cleanup? {
      CleanupSpares(c, a, move.path);
    }
  }

  /** Cleanup never touches active.json or ready.json. */
  lemma CleanupSpares(c: Context, a: Files, path: Path)
    requires Allowed(c, a, Cleanup(path))
    ensures path.directory.Manifests? || path.name.Hex?
  {
  }

  /** What the marker of a pin keeps from cleanup. */
  lemma MarkerKeeps(c: Context, files: Files, time: int, record: ProviderRecord, path: Path)
    requires PinValid(c.pin) && record in c.pin.inputs.providers
    requires MarkerAt(files, c.root) == Some(MarkerFor(c.pin, time))
    requires Unreferenced(c, files, MarkerFor(c.pin, time), path)
    ensures path != BundlePath(c.root, record) && path != ManifestPath(c.root, record)
    ensures forall chunk | chunk in ChunksOf(record) :: path != ChunkPath(c.cache, chunk.chunkId)
  {
    var marker := MarkerFor(c.pin, time);
    var i :| 0 <= i < |c.pin.inputs.providers| && c.pin.inputs.providers[i] == record;
    assert marker.providers[i] == ReadyFor(record) && marker.providers[i] in marker.providers;
    assert RecordValid(record);
  }

  lemma MarkerRead(c: Context, files: Files)
    requires ReadyPath(c.root) in files && MarkerOurs(files, c)
    ensures MarkerAt(files, c.root).Some?
    ensures MarkerAt(files, c.root).value == MarkerFor(c.pin, MarkerAt(files, c.root).value.completedAtMs)
  {
    var time :| Stored(files, ReadyPath(c.root), Encoded(MarkerText(MarkerFor(c.pin, time))));
  }

  lemma RecordInstalledKept(c: Context, a: Files, move: Move, record: ProviderRecord)
    requires PinValid(c.pin) && OnePin(a, c) && Allowed(c, a, move) && record in c.pin.inputs.providers
    requires RecordInstalled(a, c, record) && ReadyPath(c.root) in a
    ensures RecordInstalled(Effect(c, a, move), c, record)
  {
    hide Exact, Linked, VersionsAllow, Pinned, Describe, ChunkDamaged, MarkerAt, ActiveFor, MarkerFor,
      CacheSound, BundlesSound, MarkerOurs, Unreferenced, PinValid, Describable;
    match move
    case StoreManifest(base, other, raw) => OwnPaths(c, record, other);
    case DropBundle(other) =>
      assert BundleSound(a, c.root, other) by { SoundBundle(a, c, other); }
      if BundlePath(c.root, other) in a {
        ExactDescribed(other, a[BundlePath(c.root, other)].tree);
      }
    case Cleanup(path) =>
      MarkerRead(c, a);
      MarkerKeeps(c, a, MarkerAt(a, c.root).value.completedAtMs, record, path);
    case _ =>
  }

  lemma SoundBundle(files: Files, c: Context, record: ProviderRecord)
    requires BundlesSound(files, c) && record in c.pin.inputs.providers
    ensures BundleSound(files, c.root, record)
  {
  }

  lemma MarkerOursKept(c: Context, a: Files, move: Move)
    requires PinValid(c.pin) && OnePin(a, c) && Allowed(c, a, move)
    ensures MarkerOurs(Effect(c, a, move), c)
  {
    hide Exact, Linked, VersionsAllow, Pinned, Describe, ChunkDamaged, MarkerAt, ActiveFor, MarkerFor,
      CacheSound, BundlesSound, ActiveOurs, Unreferenced, PinValid, ChunksPresent, ManifestStored;
    PathsDiffer();
    var b := Effect(c, a, move);
    if ReadyPath(c.root) in b {
      if move.WriteReady? {
        WrittenReady(c, a, move.time);
      } else {
        if move.Cleanup? {
          CleanupSpares(c, a, move.path);
        }
        assert ReadyPath(c.root) in a && a[ReadyPath(c.root)] == b[ReadyPath(c.root)];
        var time :| Stored(a, ReadyPath(c.root), Encoded(MarkerText(MarkerFor(c.pin, time))));
        assert Stored(b, ReadyPath(c.root), Encoded(MarkerText(MarkerFor(c.pin, time))));
        forall record | record in c.pin.inputs.providers ensures RecordInstalled(b, c, record) {
          RecordInstalledKept(c, a, move, record);
        }
      }
    }
  }

  lemma WrittenReady(c: Context, a: Files, time: int)
    requires Allowed(c, a, WriteReady(time))
    ensures MarkerOurs(Effect(c, a, WriteReady(time)), c)
  {
    hide Pinned, Describe, ActiveFor, MarkerFor;
    PathsDiffer();
    var b := Effect(c, a, WriteReady(time));
    assert Stored(b, ReadyPath(c.root), Encoded(MarkerText(MarkerFor(c.pin, time))));
    forall record | record in c.pin.inputs.providers ensures RecordInstalled(b, c, record) {
      assert ManifestStored(a, c.root, record) && ChunksPresent(a, c.cache, record) && Described(a, c.root, record);
    }
  }

  /** No step of a run for this pin, completed or not, breaks the invariant. */
  lemma OnePinKept(c: Context, a: Files, move: Move)
    requires PinValid(c.pin) && OnePin(a, c) && Allowed(c, a, move)
    ensures OnePin(Effect(c, a, move), c)
  {
    hide PinValid, Allowed, Effect, CacheSound, BundlesSound, ActiveOurs, MarkerOurs;
    CacheSoundKept(c, a, move, c.cache);
    BundlesSoundKept(c, a, move);
    ActiveOursKept(c, a, move);
    MarkerOursKept(c, a, move);
  }
}
