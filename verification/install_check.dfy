/**
 Checking, repairing and cleaning up what is installed
 (`internal/providersync/check.go:15-173`).
*/
module InstallCheck {
  import opened ProviderInputs
  import opened Bundles
  import opened Moves
  import opened SyncFiles

  datatype Location = Location(provider: string, bundle: Digest)

  datatype Damage = Damage(chunks: set<Digest>, bundles: set<Location>)

  function LocationOf(record: ProviderRecord): Location {
    Location(record.providerId, record.bundleSha256)
  }

  function LocationPath(root: string, location: Location): Path {
    Path(Installed(root, location.provider), Hex(location.bundle))
  }

  // ---------------------------------------------------------------------
  // check.
  // ---------------------------------------------------------------------

  predicate InstalledMatches(
    files: Files, c: Context, record: ProviderRecord, chunk: Chunk, file: ChunkFile, full: bool)
  {
    FileMatches(TreeAt(files, BundlePath(c.root, record)), file, full, TreeAt(files, ChunkPath(c.cache, chunk.chunkId)))
  }

  predicate FileDamaged(files: Files, c: Context, record: ProviderRecord, chunk: Chunk, file: ChunkFile, full: bool) {
    !CachedMatches(files, c.cache, chunk, file, full) || !InstalledMatches(files, c, record, chunk, file, full)
  }

  predicate ChunkUnfit(files: Files, c: Context, record: ProviderRecord, chunk: Chunk, full: bool) {
    exists file :: file in chunk.files && FileDamaged(files, c, record, chunk, file, full)
  }

  predicate IntegrityHeld(tree: Tree, record: ProviderRecord) {
    INTEGRITY in tree && tree[INTEGRITY].Regular? && OfContent(tree[INTEGRITY].content) == record.bundleSha256
  }

  predicate BundleDamaged(files: Files, c: Context, record: ProviderRecord, full: bool) {
    || !IntegrityHeld(TreeAt(files, BundlePath(c.root, record)), record)
    || exists chunk :: chunk in ChunksOf(record) && ChunkUnfit(files, c, record, chunk, full)
  }

  function DamagedChunks(files: Files, c: Context, records: seq<ProviderRecord>, full: bool): set<Digest> {
    set record, chunk | record in records && chunk in ChunksOf(record) && ChunkDamaged(files, c.cache, chunk, full) ::
      chunk.chunkId
  }

  function DamagedBundles(files: Files, c: Context, records: seq<ProviderRecord>, full: bool): set<Location> {
    set record | record in records && BundleDamaged(files, c, record, full) :: LocationOf(record)
  }

  function DamageOf(files: Files, c: Context, full: bool): Damage {
    Damage(DamagedChunks(files, c, c.pin.inputs.providers, full), DamagedBundles(files, c, c.pin.inputs.providers, full))
  }

  method CheckChunk(files: Files, c: Context, record: ProviderRecord, chunk: Chunk, full: bool)
    returns (chunkBad: bool, bundleBad: bool)
    ensures chunkBad == ChunkDamaged(files, c.cache, chunk, full)
    ensures bundleBad == ChunkUnfit(files, c, record, chunk, full)
  {
    var cached := TreeAt(files, ChunkPath(c.cache, chunk.chunkId));
    var installed := TreeAt(files, BundlePath(c.root, record));
    chunkBad, bundleBad := false, false;
    var i := 0;
    while i < |chunk.files|
      invariant i <= |chunk.files|
      invariant chunkBad == exists k :: 0 <= k < i && !CachedMatches(files, c.cache, chunk, chunk.files[k], full)
      invariant bundleBad == exists k :: 0 <= k < i && FileDamaged(files, c, record, chunk, chunk.files[k], full)
    {
      var file := chunk.files[i];
      if !FileMatches(cached, file, full, map[]) {
        assert !CachedMatches(files, c.cache, chunk, chunk.files[i], full);
        assert FileDamaged(files, c, record, chunk, chunk.files[i], full);
        chunkBad, bundleBad := true, true;
      } else if !FileMatches(installed, file, full, cached) {
        assert FileDamaged(files, c, record, chunk, chunk.files[i], full);
        bundleBad := true;
      }
      i := i + 1;
    }
  }

  method CheckRecord(files: Files, c: Context, record: ProviderRecord, manifest: ChunkManifest, full: bool)
    returns (chunks: set<Digest>, bundleBad: bool)
    requires manifest == ManifestOf(record)
    ensures chunks == DamagedChunks(files, c, [record], full)
    ensures bundleBad == BundleDamaged(files, c, record, full)
  {
    hide ChunkDamaged, ChunkUnfit;
    chunks := {};
    bundleBad := !IntegrityHeld(TreeAt(files, BundlePath(c.root, record)), record);
    var list, i := manifest.chunks, 0;
    while i < |list|
      invariant i <= |list|
      invariant chunks == set k | 0 <= k < i && ChunkDamaged(files, c.cache, list[k], full) :: list[k].chunkId
      invariant bundleBad == (!IntegrityHeld(TreeAt(files, BundlePath(c.root, record)), record)
                              || exists k :: 0 <= k < i && ChunkUnfit(files, c, record, list[k], full))
    {
      var chunkBad, unfit := CheckChunk(files, c, record, list[i], full);
      if chunkBad {
        chunks := chunks + {list[i].chunkId};
      }
      bundleBad := bundleBad || unfit;
      i := i + 1;
    }
    ListedDamage(files, c, record, full);
  }

  lemma ListedDamage(files: Files, c: Context, record: ProviderRecord, full: bool)
    ensures var list := ChunksOf(record);
            DamagedChunks(files, c, [record], full)
            == set k | 0 <= k < |list| && ChunkDamaged(files, c.cache, list[k], full) :: list[k].chunkId
  {
    hide ChunkDamaged;
    var list := ChunksOf(record);
    forall chunk | chunk in list && ChunkDamaged(files, c.cache, chunk, full)
      ensures exists k :: 0 <= k < |list| && ChunkDamaged(files, c.cache, list[k], full) && list[k] == chunk
    {
      var k :| 0 <= k < |list| && list[k] == chunk;
    }
  }

  lemma DamageStep(files: Files, c: Context, records: seq<ProviderRecord>, i: nat, full: bool)
    requires i < |records|
    ensures DamagedChunks(files, c, records[..i + 1], full)
            == DamagedChunks(files, c, records[..i], full) + DamagedChunks(files, c, [records[i]], full)
    ensures DamagedBundles(files, c, records[..i + 1], full)
            == DamagedBundles(files, c, records[..i], full)
               + if BundleDamaged(files, c, records[i], full) then {LocationOf(records[i])} else {}
  {
    hide ChunkDamaged, BundleDamaged;
    assert records[..i + 1] == records[..i] + [records[i]];
  }

  /** Exactly the chunks and bundles with a file that does not match. */
  method Check(files: Files, c: Context, manifests: seq<ChunkManifest>, full: bool) returns (bad: Damage)
    requires |manifests| == |c.pin.inputs.providers|
    requires forall i | 0 <= i < |manifests| :: manifests[i] == ManifestOf(c.pin.inputs.providers[i])
    ensures bad == DamageOf(files, c, full)
    ensures (full ==> Coherent(files)) ==> Reported(files, c, bad, full)
  {
    if full ==> Coherent(files) {
      CheckExactly(files, c, full);
    }
    hide Coherent, Reported, DamagedChunks, DamagedBundles, BundleDamaged;
    var records := c.pin.inputs.providers;
    var chunks: set<Digest>, bundles: set<Location>, i := {}, {}, 0;
    NoDamage(files, c, records, full);
    while i < |records|
      invariant i <= |records|
      invariant chunks == DamagedChunks(files, c, records[..i], full)
      invariant bundles == DamagedBundles(files, c, records[..i], full)
    {
      var bad, bundleBad := CheckRecord(files, c, records[i], manifests[i], full);
      DamageStep(files, c, records, i, full);
      chunks := chunks + bad;
      if bundleBad {
        bundles := bundles + {LocationOf(records[i])};
      }
      i := i + 1;
    }
    assert records[..i] == records;
    return Damage(chunks, bundles);
  }

  lemma NoDamage(files: Files, c: Context, records: seq<ProviderRecord>, full: bool)
    ensures DamagedChunks(files, c, records[..0], full) == {} && DamagedBundles(files, c, records[..0], full) == {}
  {
  }

  /** A damaged chunk damages the bundle of every Provider that lists it. */
  lemma SharedChunkDamagesBundles(files: Files, c: Context, record: ProviderRecord, chunk: Chunk, full: bool)
    requires record in c.pin.inputs.providers && chunk in ChunksOf(record)
    requires Pinned(record) && chunk.chunkId in DamageOf(files, c, full).chunks
    requires forall other | other in c.pin.inputs.providers :: Pinned(other)
    ensures LocationOf(record) in DamageOf(files, c, full).bundles
  {
    var other, twin :| other in c.pin.inputs.providers && twin in ChunksOf(other)
                       && ChunkDamaged(files, c.cache, twin, full) && twin.chunkId == chunk.chunkId;
    assert twin.files == chunk.files by {
      assert ChunkValid(chunk, record.providerId) && ChunkValid(twin, other.providerId);
    }
    var file :| file in twin.files && !CachedMatches(files, c.cache, twin, file, full);
    assert FileDamaged(files, c, record, chunk, file, full);
    assert ChunkUnfit(files, c, record, chunk, full);
    assert BundleDamaged(files, c, record, full);
  }

  // ---------------------------------------------------------------------
  // Full rehashing, and why a hard link need not be hashed again.
  // ---------------------------------------------------------------------

  /** A bundle whose integrity file is the pinned one and whose files are there, as the cache's are. */
  ghost predicate BundleThere(files: Files, c: Context, record: ProviderRecord, bytes: bool) {
    var tree := TreeAt(files, BundlePath(c.root, record));
    && INTEGRITY in tree && tree[INTEGRITY].Regular? && OfContent(tree[INTEGRITY].content) == record.bundleSha256
    && forall chunk | chunk in ChunksOf(record) ::
         AllThere(TreeAt(files, ChunkPath(c.cache, chunk.chunkId)), chunk.files, bytes) && AllThere(tree, chunk.files, bytes)
  }

  /** A chunk that some record lists and that misses a file, or has one of another size or, with `bytes`, other bytes. */
  ghost predicate ChunkMissing(files: Files, c: Context, id: Digest, bytes: bool) {
    exists record, chunk :: record in c.pin.inputs.providers && chunk in ChunksOf(record) && chunk.chunkId == id
      && !AllThere(TreeAt(files, ChunkPath(c.cache, id)), chunk.files, bytes)
  }

  ghost predicate BundleMissing(files: Files, c: Context, location: Location, bytes: bool) {
    exists record :: record in c.pin.inputs.providers && LocationOf(record) == location
      && !BundleThere(files, c, record, bytes)
  }

  /** What a check has to report. */
  ghost predicate Reported(files: Files, c: Context, bad: Damage, bytes: bool) {
    && (forall id :: id in bad.chunks <==> ChunkMissing(files, c, id, bytes))
    && (forall location :: location in bad.bundles <==> BundleMissing(files, c, location, bytes))
  }

  lemma CachedExactly(files: Files, c: Context, chunk: Chunk, full: bool)
    ensures ChunkDamaged(files, c.cache, chunk, full)
       <==> !AllThere(TreeAt(files, ChunkPath(c.cache, chunk.chunkId)), chunk.files, full)
  {
    var tree := TreeAt(files, ChunkPath(c.cache, chunk.chunkId));
    assert forall file | file in chunk.files :: CachedMatches(files, c.cache, chunk, file, full) <==> FileThere(tree, file, full);
  }

  /** A hard link of a file that was hashed has its bytes. */
  lemma InstalledExactly(files: Files, c: Context, record: ProviderRecord, chunk: Chunk, file: ChunkFile, full: bool)
    requires full ==> Coherent(files)
    requires FileThere(TreeAt(files, ChunkPath(c.cache, chunk.chunkId)), file, full)
    ensures InstalledMatches(files, c, record, chunk, file, full)
       <==> FileThere(TreeAt(files, BundlePath(c.root, record)), file, full)
  {
    var p, q := BundlePath(c.root, record), ChunkPath(c.cache, chunk.chunkId);
    if full && FileThere(TreeAt(files, p), file, false) {
      assert p in files && q in files;
      assert TreeAt(files, p)[file.path] in Nodes(files) && TreeAt(files, q)[file.path] in Nodes(files);
    }
  }

  lemma UnfitExactly(files: Files, c: Context, record: ProviderRecord, chunk: Chunk, full: bool)
    requires full ==> Coherent(files)
    ensures ChunkUnfit(files, c, record, chunk, full)
       <==> !(AllThere(TreeAt(files, ChunkPath(c.cache, chunk.chunkId)), chunk.files, full)
              && AllThere(TreeAt(files, BundlePath(c.root, record)), chunk.files, full))
  {
    hide Coherent, InstalledMatches;
    var cached, tree := TreeAt(files, ChunkPath(c.cache, chunk.chunkId)), TreeAt(files, BundlePath(c.root, record));
    forall file | file in chunk.files
      ensures FileDamaged(files, c, record, chunk, file, full)
         <==> !(FileThere(cached, file, full) && FileThere(tree, file, full))
    {
      assert CachedMatches(files, c.cache, chunk, file, full) <==> FileThere(cached, file, full);
      if FileThere(cached, file, full) {
        InstalledExactly(files, c, record, chunk, file, full);
      }
    }
  }

  lemma BundleExactly(files: Files, c: Context, record: ProviderRecord, full: bool)
    requires full ==> Coherent(files)
    ensures BundleDamaged(files, c, record, full) <==> !BundleThere(files, c, record, full)
  {
    hide Coherent, ChunkUnfit, AllThere;
    forall chunk | chunk in ChunksOf(record)
      ensures ChunkUnfit(files, c, record, chunk, full)
         <==> !(AllThere(TreeAt(files, ChunkPath(c.cache, chunk.chunkId)), chunk.files, full)
                && AllThere(TreeAt(files, BundlePath(c.root, record)), chunk.files, full))
    {
      UnfitExactly(files, c, record, chunk, full);
    }
  }

  /**
   Either check reports exactly the chunks and bundles with a listed file that is
   missing, irregular or of another size, and a full one also those with other
   bytes, though it does not hash a file that is a link of one it has hashed.
  */
  lemma CheckExactly(files: Files, c: Context, full: bool)
    requires full ==> Coherent(files)
    ensures Reported(files, c, DamageOf(files, c, full), full)
  {
    hide Coherent, ChunkDamaged, BundleDamaged, BundleThere, AllThere;
    var bad := DamageOf(files, c, full);
    forall id ensures id in bad.chunks <==> ChunkMissing(files, c, id, full) {
      forall record, chunk | record in c.pin.inputs.providers && chunk in ChunksOf(record) && chunk.chunkId == id
        ensures ChunkDamaged(files, c.cache, chunk, full)
           <==> !AllThere(TreeAt(files, ChunkPath(c.cache, id)), chunk.files, full)
      {
        CachedExactly(files, c, chunk, full);
      }
    }
    forall location ensures location in bad.bundles <==> BundleMissing(files, c, location, full) {
      forall record | record in c.pin.inputs.providers
        ensures BundleDamaged(files, c, record, full) <==> !BundleThere(files, c, record, full)
      {
        BundleExactly(files, c, record, full);
      }
    }
  }

  /** What a check did not report has every listed file. */
  lemma CheckSound(files: Files, c: Context, record: ProviderRecord, full: bool)
    requires full ==> Coherent(files)
    requires record in c.pin.inputs.providers
    ensures LocationOf(record) !in DamageOf(files, c, full).bundles ==>
              AllThere(TreeAt(files, BundlePath(c.root, record)), BundleFiles(record), full)
    ensures forall chunk | chunk in ChunksOf(record) && chunk.chunkId !in DamageOf(files, c, full).chunks ::
              AllThere(TreeAt(files, ChunkPath(c.cache, chunk.chunkId)), chunk.files, full)
  {
    hide Coherent, DamageOf;
    CheckExactly(files, c, full);
    if LocationOf(record) !in DamageOf(files, c, full).bundles {
      assert BundleThere(files, c, record, full);
      forall file | file in BundleFiles(record)
        ensures FileThere(TreeAt(files, BundlePath(c.root, record)), file, full)
      {
        ListedInChunk(ChunksOf(record), file);
      }
    }
  }

  /** Where the pinned bytes are, either check finds nothing. */
  lemma PinnedBytesPass(files: Files, c: Context, full: bool)
    requires forall record | record in c.pin.inputs.providers :: RecordHeld(files, c, record)
    ensures DamageOf(files, c, full) == Damage({}, {})
  {
    forall record, chunk, file | record in c.pin.inputs.providers && chunk in ChunksOf(record) && file in chunk.files
      ensures !FileDamaged(files, c, record, chunk, file, full)
    {
      assert RecordHeld(files, c, record);
      ListedInChunk(ChunksOf(record), file);
      var i :| 0 <= i < |BundleFiles(record)| && BundleFiles(record)[i] == file;
      assert Holds(TreeAt(files, BundlePath(c.root, record)), BundleFiles(record)[i]);
      assert HoldsAll(TreeAt(files, ChunkPath(c.cache, chunk.chunkId)), chunk.files);
      var k :| 0 <= k < |chunk.files| && chunk.files[k] == file;
      assert Holds(TreeAt(files, ChunkPath(c.cache, chunk.chunkId)), chunk.files[k]);
    }
    forall record | record in c.pin.inputs.providers
      ensures !BundleDamaged(files, c, record, full)
      ensures forall chunk | chunk in ChunksOf(record) :: !ChunkDamaged(files, c.cache, chunk, full)
    {
      assert RecordHeld(files, c, record);
      forall chunk | chunk in ChunksOf(record)
        ensures !ChunkDamaged(files, c.cache, chunk, full) && !ChunkUnfit(files, c, record, chunk, full)
      {
        assert forall file | file in chunk.files :: !FileDamaged(files, c, record, chunk, file, full);
      }
    }
  }

  ghost predicate RecordHeld(files: Files, c: Context, record: ProviderRecord) {
    && IntegrityHeld(TreeAt(files, BundlePath(c.root, record)), record)
    && HoldsAll(TreeAt(files, BundlePath(c.root, record)), BundleFiles(record))
    && forall chunk | chunk in ChunksOf(record) ::
         HoldsAll(TreeAt(files, ChunkPath(c.cache, chunk.chunkId)), chunk.files)
  }
}
