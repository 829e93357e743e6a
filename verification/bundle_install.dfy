/**
 Installing a pin (`internal/providersync/sync.go:176-331`, `assemble.go:52-91`):
 manifests, space, chunks, bundles, then active.json and the completion marker.
*/
module BundleInstall {
  import opened Wrappers
  import opened ProviderInputs
  import opened Bundles
  import opened Moves
  import opened InstallInvariants
  import opened SyncFiles
  import opened ChunkInstall

  const SPACE_MARGIN := 64 * 1024 * 1024

  // ---------------------------------------------------------------------
  // What a source must serve for a record, and frames.
  // ---------------------------------------------------------------------

  /** `<base>/manifests/<asset>` under a seed or the cache, with the pinned digest. */
  ghost predicate LocalManifest(files: Files, options: Options, cache: string, asset: Asset) {
    exists base :: base in options.seeds + [cache] && HoldsManifest(files, base, asset)
  }

  predicate HoldsManifest(files: Files, base: string, asset: Asset) {
    var path := Path(Manifests(base), Word(if asset.asset.Named? then asset.asset.text else ""));
    && path in files && files[path].File?
    && files[path].content.size == asset.sizeBytes && OfContent(files[path].content) == asset.sha256
  }

  ghost predicate ManifestObtainable(files: Files, options: Options, cache: string, asset: Asset) {
    LocalManifest(files, options, cache, asset) || AssetServed(options, asset.asset, asset.sha256, asset.sizeBytes)
  }

  /** In the cache, under a seed, or served. */
  ghost predicate ChunkObtainable(files: Files, options: Options, cache: string, chunk: Chunk) {
    ChunkPath(cache, chunk.chunkId) in files || Seedable(files, options, chunk) || ChunkServed(options, chunk)
  }

  /** Everything a record needs can be had, and its pinned bytes make a bundle. */
  ghost predicate Obtainable(files: Files, options: Options, cache: string, record: ProviderRecord) {
    && Pinned(record) && Describable(record, Listed(record)) && PathsFit(BundleFiles(record))
    && ManifestObtainable(files, options, cache, record.chunkManifest)
    && forall chunk | chunk in ChunksOf(record) :: ChunkObtainable(files, options, cache, chunk)
  }

  ghost predicate AllObtainable(files: Files, options: Options, c: Context) {
    forall record | record in c.pin.inputs.providers :: Obtainable(files, options, c.cache, record)
  }

  ghost predicate ManifestsObtainable(files: Files, options: Options, c: Context, from: nat) {
    forall i | from <= i < |c.pin.inputs.providers| ::
      && Pinned(c.pin.inputs.providers[i])
      && ManifestObtainable(files, options, c.cache, c.pin.inputs.providers[i].chunkManifest)
  }

  function WithoutManifests(files: Files): Files {
    map path | path in files && !path.directory.Manifests? :: files[path]
  }

  /** Only chunk directories of the cache were added. */
  ghost predicate GrownByChunks(a: Files, b: Files, cache: string) {
    && (forall path | path in a :: path in b && b[path] == a[path])
    && (forall path | path in b && path !in a :: path.directory == Base(cache) && path.name.Hex?)
  }

  lemma ElsewhereKept(a: Files, b: Files, path: Path)
    requires WithoutManifests(a) == WithoutManifests(b) && !path.directory.Manifests?
    ensures path in a <==> path in b
    ensures path in a ==> a[path] == b[path]
  {
    assert path in a <==> path in WithoutManifests(a);
    assert path in b <==> path in WithoutManifests(b);
    assert path in a ==> WithoutManifests(a)[path] == a[path] && WithoutManifests(b)[path] == b[path];
  }

  ghost predicate AllStored(files: Files, root: string, records: seq<ProviderRecord>) {
    forall i | 0 <= i < |records| :: ManifestStored(files, root, records[i])
  }

  ghost predicate AreManifests(manifests: seq<ChunkManifest>, records: seq<ProviderRecord>) {
    && |manifests| == |records|
    && forall i | 0 <= i < |records| :: Pinned(records[i]) && manifests[i] == ManifestOf(records[i])
  }

  // ---------------------------------------------------------------------
  // Manifests.
  // ---------------------------------------------------------------------

  /** A local copy is trusted for its digest; only without one is the source asked. */
  method ManifestBytes(fs: FileSystem, options: Options, asset: Asset) returns (raw: Outcome<Content>)
    ensures raw.Done? ==> OfContent(raw.value) == asset.sha256 && raw.value.size == asset.sizeBytes
    ensures raw.Done? <==> ManifestObtainable(fs.files, options, fs.c.cache, asset)
  {
    var places, i := options.seeds + [fs.c.cache], 0;
    while i < |places|
      invariant i <= |places| && forall k | 0 <= k < i :: !HoldsManifest(fs.files, places[k], asset)
    {
      var path := Path(Manifests(places[i]), Word(if asset.asset.Named? then asset.asset.text else ""));
      if path in fs.files && fs.files[path].File? && fs.files[path].content.size == asset.sizeBytes
        && OfContent(fs.files[path].content) == asset.sha256
      {
        assert places[i] in places && HoldsManifest(fs.files, places[i], asset);
        return Done(fs.files[path].content);
      }
      i := i + 1;
    }
    raw := FetchVerified(options, asset.asset, asset.sha256, asset.sizeBytes);
  }

  method StoreManifestAt(fs: FileSystem, base: string, record: ProviderRecord, raw: Content)
    requires fs.Valid() && (base == fs.c.root || base == fs.c.cache)
    requires record in fs.c.pin.inputs.providers && Pinned(record) && raw == record.chunkManifest.sha256.content
    modifies fs`files, fs`trace, fs`log
    ensures fs.Valid() && fs.Continues()
    ensures fs.Now() == old(fs.Now())[ManifestPath(base, record) := File(raw)]
    ensures WithoutManifests(fs.Now()) == old(WithoutManifests(fs.Now()))
  {
    hide Follows, PinValid, Pinned;
    fs.WriteAtomic(Manifests(base), ManifestPath(base, record).name.text, raw, StoreManifest(base, record, raw));
  }

  lemma StoredStays(c: Context, a: Files, b: Files, record: ProviderRecord, other: ProviderRecord, base: string)
    requires PinValid(c.pin) && record in c.pin.inputs.providers && other in c.pin.inputs.providers
    requires Pinned(record)
    requires b == a[ManifestPath(base, record) := File(record.chunkManifest.sha256.content)]
    ensures ManifestStored(a, c.root, other) ==> ManifestStored(b, c.root, other)
    ensures base == c.root ==> ManifestStored(b, c.root, record)
  {
    hide PinValid, Pinned;
    OwnPaths(c, record, other);
  }

  lemma LocalStays(c: Context, options: Options, a: Files, b: Files, i: nat, k: nat, base: string)
    requires PinValid(c.pin) && i < |c.pin.inputs.providers| && k < |c.pin.inputs.providers|
    requires var record := c.pin.inputs.providers[i];
      && Pinned(record) && record.chunkManifest.sha256.content.size == record.chunkManifest.sizeBytes
      && b == a[ManifestPath(base, record) := File(record.chunkManifest.sha256.content)]
    requires ManifestObtainable(a, options, c.cache, c.pin.inputs.providers[k].chunkManifest)
    ensures ManifestObtainable(b, options, c.cache, c.pin.inputs.providers[k].chunkManifest)
  {
    hide PinValid, Pinned, AssetServed;
    var record, other := c.pin.inputs.providers[i], c.pin.inputs.providers[k];
    OwnPaths(c, record, other);
    if LocalManifest(a, options, c.cache, other.chunkManifest) {
      var place :| place in options.seeds + [c.cache] && HoldsManifest(a, place, other.chunkManifest);
      assert HoldsManifest(b, place, other.chunkManifest) by {
        if ManifestPath(place, other) == ManifestPath(base, record) {
          assert ManifestPath(place, record) == ManifestPath(place, other);
        }
      }
    }
  }

  lemma AllLocalStay(c: Context, options: Options, a: Files, b: Files, i: nat, base: string)
    requires PinValid(c.pin) && i < |c.pin.inputs.providers|
    requires var record := c.pin.inputs.providers[i];
      && Pinned(record) && record.chunkManifest.sha256.content.size == record.chunkManifest.sizeBytes
      && b == a[ManifestPath(base, record) := File(record.chunkManifest.sha256.content)]
    ensures ManifestsObtainable(a, options, c, i) ==> ManifestsObtainable(b, options, c, i)
    ensures ManifestsObtainable(a, options, c, i) ==> ManifestsObtainable(b, options, c, i + 1)
  {
    hide PinValid, Pinned, ManifestObtainable;
    if ManifestsObtainable(a, options, c, i) {
      forall k | i <= k < |c.pin.inputs.providers|
        ensures ManifestObtainable(b, options, c.cache, c.pin.inputs.providers[k].chunkManifest)
      {
        LocalStays(c, options, a, b, i, k, base);
      }
    }
  }

  lemma NoneStored(files: Files, root: string, records: seq<ProviderRecord>)
    ensures AllStored(files, root, records[..0])
  {
  }

  /** In the root, and in a cache that is not below it. */
  method KeepManifest(fs: FileSystem, i: nat, raw: Content, ghost options: Options)
    requires fs.Valid() && i < |fs.c.pin.inputs.providers|
    requires var record := fs.c.pin.inputs.providers[i];
      Pinned(record) && raw == record.chunkManifest.sha256.content && raw.size == record.chunkManifest.sizeBytes
    requires AllStored(fs.Now(), fs.c.root, fs.c.pin.inputs.providers[..i])
    modifies fs`files, fs`trace, fs`log
    ensures ManifestsObtainable(old(fs.Now()), options, fs.c, i) ==> ManifestsObtainable(fs.Now(), options, fs.c, i + 1)
    ensures fs.Valid() && fs.Continues() && WithoutManifests(fs.Now()) == old(WithoutManifests(fs.Now()))
    ensures AllStored(fs.Now(), fs.c.root, fs.c.pin.inputs.providers[..i + 1])
  {
    hide Follows, Allowed, Effect, PinValid, InodesSound, Pinned, AllStored, ManifestsObtainable, WithoutManifests;
    var records := fs.c.pin.inputs.providers;
    ghost var before := fs.Now();
    StoreManifestAt(fs, fs.c.root, records[i], raw);
    StoredAfter(fs.c, before, fs.Now(), records, i, fs.c.root);
    AllLocalStay(fs.c, options, before, fs.Now(), i, fs.c.root);
    if fs.c.cache != fs.c.root + "/chunks" {
      ghost var between := fs.Now();
      StoreManifestAt(fs, fs.c.cache, records[i], raw);
      StoredAfter(fs.c, between, fs.Now(), records, i, fs.c.cache);
      AllLocalStay(fs.c, options, between, fs.Now(), i, fs.c.cache);
    }
  }

  method FetchManifests(fs: FileSystem, options: Options) returns (manifests: Outcome<seq<ChunkManifest>>)
    requires fs.Valid()
    modifies fs`files, fs`trace, fs`log
    ensures fs.Valid() && fs.Continues() && WithoutManifests(fs.Now()) == old(WithoutManifests(fs.Now()))
    ensures manifests.Done? ==>
      && AreManifests(manifests.value, fs.c.pin.inputs.providers)
      && AllStored(fs.Now(), fs.c.root, fs.c.pin.inputs.providers)
    ensures ManifestsObtainable(old(fs.Now()), options, fs.c, 0) ==> manifests.Done?
  {
    hide Follows, Allowed, Effect, PinValid, InodesSound, Pinned, AllStored, WithoutManifests, ManifestObtainable,
      ManifestsObtainable;
    NoneStored(fs.Now(), fs.c.root, fs.c.pin.inputs.providers);
    var records := fs.c.pin.inputs.providers;
    var list, i := [], 0;
    while i < |records|
      invariant i <= |records| && fs.Valid() && fs.Continues()
      invariant WithoutManifests(fs.Now()) == old(WithoutManifests(fs.Now()))
      invariant AreManifests(list, records[..i]) && AllStored(fs.Now(), fs.c.root, records[..i])
      invariant ManifestsObtainable(old(fs.Now()), options, fs.c, 0) ==> ManifestsObtainable(fs.Now(), options, fs.c, i)
    {
      var record := records[i];
      LocalSeen(fs.files, options, fs.c.cache, record.chunkManifest);
      ObtainableAt(fs.Now(), options, fs.c, i);
      var raw := ManifestBytes(fs, options, record.chunkManifest);
      if raw.Failed? {
        return Failed(raw.error);
      }
      PinnedByBytes(record, raw.value);
      var manifest := ParseManifest(raw.value, record);
      if manifest.None? {
        return Failed(InputsInvalid);
      }
      KeepManifest(fs, i, raw.value, options);
      list := list + [manifest.value];
      i := i + 1;
    }
    assert records[..i] == records;
    return Done(list);
  }

  lemma ObtainableAt(files: Files, options: Options, c: Context, i: nat)
    requires i < |c.pin.inputs.providers|
    ensures ManifestsObtainable(files, options, c, i) ==>
      && Pinned(c.pin.inputs.providers[i])
      && ManifestObtainable(files, options, c.cache, c.pin.inputs.providers[i].chunkManifest)
  {
  }

  lemma LocalSeen(files: Files, options: Options, cache: string, asset: Asset)
    ensures ManifestObtainable(files, options, cache, asset) <==> ManifestObtainable(View(files), options, cache, asset)
  {
    hide AssetServed;
    forall base ensures HoldsManifest(files, base, asset) <==> HoldsManifest(View(files), base, asset) {
    }
  }

  lemma PinnedByBytes(record: ProviderRecord, raw: Content)
    requires OfContent(raw) == record.chunkManifest.sha256
    ensures ManifestFor(raw, record) <==> Pinned(record)
    ensures Pinned(record) ==> ManifestOf(record) == raw.decoded.manifest && record.chunkManifest.sha256.content == raw
  {
  }

  lemma StoredAfter(c: Context, a: Files, b: Files, records: seq<ProviderRecord>, i: nat, base: string)
    requires PinValid(c.pin) && records == c.pin.inputs.providers && i < |records| && Pinned(records[i])
    requires b == a[ManifestPath(base, records[i]) := File(records[i].chunkManifest.sha256.content)]
    requires AllStored(a, c.root, records[..i])
    requires base == c.root || ManifestStored(a, c.root, records[i])
    ensures AllStored(b, c.root, records[..i + 1]) && AllStored(b, c.root, records[..i])
    ensures ManifestStored(b, c.root, records[i])
  {
    hide PinValid, Pinned;
    forall k | 0 <= k <= i ensures ManifestStored(b, c.root, records[k]) {
      StoredStays(c, a, b, records[i], records[k], base);
      if k < i {
        assert records[..i][k] == records[k];
      }
    }
  }

  // ---------------------------------------------------------------------
  // Space.
  // ---------------------------------------------------------------------

  function ChunkSpace(files: Files, cache: string, chunks: seq<Chunk>): int {
    if chunks == [] then 0
    else
      var last := chunks[|chunks| - 1];
      ChunkSpace(files, cache, chunks[..|chunks| - 1])
      + if ChunkPath(cache, last.chunkId) in files then 0 else last.unpackedSizeBytes + last.archiveSizeBytes
  }

  function SpaceNeeded(files: Files, cache: string, manifests: seq<ChunkManifest>): int {
    if manifests == [] then 0
    else SpaceNeeded(files, cache, manifests[..|manifests| - 1])
         + ChunkSpace(files, cache, manifests[|manifests| - 1].chunks)
  }

  predicate SpaceEnough(files: Files, cache: string, manifests: seq<ChunkManifest>, available: int) {
    var needed := SpaceNeeded(files, cache, manifests);
    needed > 0 ==> available >= needed + 64 * 1024 * 1024
  }

  /** Every chunk of the manifests, in order. */
  function ChunkList(manifests: seq<ChunkManifest>): seq<Chunk> {
    if manifests == [] then [] else manifests[0].chunks + ChunkList(manifests[1..])
  }

  /** Those of the chunks that the cache does not hold. */
  function MissingOf(files: Files, cache: string, chunks: seq<Chunk>): seq<Chunk> {
    if chunks == [] then []
    else if ChunkPath(cache, chunks[0].chunkId) in files then MissingOf(files, cache, chunks[1..])
    else [chunks[0]] + MissingOf(files, cache, chunks[1..])
  }

  function ArchivesOf(chunks: seq<Chunk>): int {
    if chunks == [] then 0 else ArchivesOf(chunks[..|chunks| - 1]) + chunks[|chunks| - 1].archiveSizeBytes
  }

  lemma {:induction false} SumsJoin(a: seq<Chunk>, b: seq<Chunk>)
    ensures UnpackedOf(a + b) == UnpackedOf(a) + UnpackedOf(b) && ArchivesOf(a + b) == ArchivesOf(a) + ArchivesOf(b)
  {
    if b == [] {
      assert a + b == a;
    } else {
      SumsJoin(a, b[..|b| - 1]);
      assert (a + b)[..|a + b| - 1] == a + b[..|b| - 1];
    }
  }

  lemma {:induction false} MissingJoin(files: Files, cache: string, a: seq<Chunk>, b: seq<Chunk>)
    ensures MissingOf(files, cache, a + b) == MissingOf(files, cache, a) + MissingOf(files, cache, b)
  {
    if a == [] {
      assert a + b == b;
    } else {
      MissingJoin(files, cache, a[1..], b);
      assert (a + b)[1..] == a[1..] + b;
    }
  }

  lemma {:induction false} ChunkSpaceExactly(files: Files, cache: string, chunks: seq<Chunk>)
    ensures ChunkSpace(files, cache, chunks)
         == UnpackedOf(MissingOf(files, cache, chunks)) + ArchivesOf(MissingOf(files, cache, chunks))
  {
    if chunks != [] {
      var front, last := chunks[..|chunks| - 1], chunks[|chunks| - 1];
      ChunkSpaceExactly(files, cache, front);
      MissingJoin(files, cache, front, [last]);
      assert chunks == front + [last];
      SumsJoin(MissingOf(files, cache, front), MissingOf(files, cache, [last]));
      assert [last][..0] == [];
    }
  }

  lemma Associate(a: seq<Chunk>, b: seq<Chunk>, c: seq<Chunk>)
    ensures a + b + c == a + (b + c)
  {
  }

  lemma {:induction false} ListJoin(a: seq<ChunkManifest>, b: seq<ChunkManifest>)
    ensures ChunkList(a + b) == ChunkList(a) + ChunkList(b)
  {
    if a == [] {
      assert a + b == b;
    } else {
      ListJoin(a[1..], b);
      assert (a + b)[1..] == a[1..] + b && (a + b)[0] == a[0];
      Associate(a[0].chunks, ChunkList(a[1..]), ChunkList(b));
    }
  }

  /** The space called for is that of the unpacked files and of the archives of every missing chunk. */
  lemma {:induction false} SpaceExactly(files: Files, cache: string, manifests: seq<ChunkManifest>)
    ensures var missing := MissingOf(files, cache, ChunkList(manifests));
            SpaceNeeded(files, cache, manifests) == UnpackedOf(missing) + ArchivesOf(missing)
  {
    if manifests != [] {
      var front, last := manifests[..|manifests| - 1], manifests[|manifests| - 1];
      SpaceExactly(files, cache, front);
      ListJoin(front, [last]);
      assert manifests == front + [last];
      assert ChunkList([last]) == last.chunks + ChunkList([last][1..]) == last.chunks;
      MissingJoin(files, cache, ChunkList(front), last.chunks);
      SumsJoin(MissingOf(files, cache, ChunkList(front)), MissingOf(files, cache, last.chunks));
      ChunkSpaceExactly(files, cache, last.chunks);
    }
  }

  ghost predicate SizesNatural(chunks: seq<Chunk>) {
    forall chunk | chunk in chunks :: chunk.unpackedSizeBytes >= 0 && chunk.archiveSizeBytes >= 0
  }

  lemma {:induction false} PeakWithin(chunks: seq<Chunk>, i: nat)
    requires SizesNatural(chunks) && i <= |chunks|
    ensures UnpackedOf(chunks[..i]) <= UnpackedOf(chunks)
    ensures 0 <= ArchivesOf(chunks)
    ensures i < |chunks| ==>
      UnpackedOf(chunks[..i]) + chunks[i].archiveSizeBytes + chunks[i].unpackedSizeBytes
      <= UnpackedOf(chunks) + ArchivesOf(chunks)
    decreases |chunks|
  {
    if chunks == [] {
      assert chunks[..i] == chunks;
    } else {
      var front, last := chunks[..|chunks| - 1], chunks[|chunks| - 1];
      assert last in chunks && forall chunk | chunk in front :: chunk in chunks;
      if i < |chunks| {
        PeakWithin(front, i);
        assert chunks[..i] == front[..i];
        if i == |front| {
          assert front[..i] == front;
        }
      } else {
        PeakWithin(front, |front|);
        assert chunks[..i] == chunks;
      }
    }
  }

  /**
   What has room for the space called for has room for every moment of the
   installation: the chunks unpacked so far, and the next one with its archive.
  */
  lemma SpaceCoversPeak(files: Files, cache: string, manifests: seq<ChunkManifest>, available: int, i: nat)
    requires SpaceEnough(files, cache, manifests, available)
    requires SizesNatural(ChunkList(manifests)) && i < |MissingOf(files, cache, ChunkList(manifests))|
    requires MissingOf(files, cache, ChunkList(manifests))[i].archiveSizeBytes > 0
    ensures var missing := MissingOf(files, cache, ChunkList(manifests));
      UnpackedOf(missing[..i]) + missing[i].archiveSizeBytes + missing[i].unpackedSizeBytes + 64 * 1024 * 1024 <= available
  {
    var missing := MissingOf(files, cache, ChunkList(manifests));
    MissingAmong(files, cache, ChunkList(manifests));
    SpaceExactly(files, cache, manifests);
    PeakWithin(missing, i);
    PeakWithin(missing, 0);
    NaturalSum(missing[..i]);
  }

  lemma {:induction false} NaturalSum(chunks: seq<Chunk>)
    requires SizesNatural(chunks)
    ensures UnpackedOf(chunks) >= 0
  {
    PeakWithin(chunks, 0);
    assert chunks[..0] == [];
  }

  lemma {:induction false} MissingAmong(files: Files, cache: string, chunks: seq<Chunk>)
    ensures forall chunk | chunk in MissingOf(files, cache, chunks) :: chunk in chunks
  {
    if chunks != [] {
      MissingAmong(files, cache, chunks[1..]);
    }
  }

  method EnsureSpace(files: Files, cache: string, manifests: seq<ChunkManifest>, available: int)
    returns (err: Option<Error>)
    ensures err == if SpaceEnough(files, cache, manifests, available) then None else Some(Space)
  {
    var needed, i := 0, 0;
    while i < |manifests|
      invariant i <= |manifests| && needed == SpaceNeeded(files, cache, manifests[..i])
    {
      var chunks, j := manifests[i].chunks, 0;
      ghost var before := needed;
      while j < |chunks|
        invariant j <= |chunks| && needed == before + ChunkSpace(files, cache, chunks[..j])
      {
        if ChunkPath(cache, chunks[j].chunkId) !in files {
          needed := needed + chunks[j].unpackedSizeBytes + chunks[j].archiveSizeBytes;
        }
        assert chunks[..j + 1][..j] == chunks[..j];
        j := j + 1;
      }
      assert chunks[..j] == chunks && manifests[..i + 1][..i] == manifests[..i];
      i := i + 1;
    }
    assert manifests[..i] == manifests;
    if needed > 0 && available < needed + SPACE_MARGIN {
      return Some(Space);
    }
    return None;
  }

  // ---------------------------------------------------------------------
  // Chunks.
  // ---------------------------------------------------------------------

  lemma GrownAfter(a: Files, b: Files, d: Files, cache: string, id: Digest)
    requires GrownByChunks(a, b, cache)
    requires d - {ChunkPath(cache, id)} == b - {ChunkPath(cache, id)} && (ChunkPath(cache, id) in b ==> d == b)
    ensures GrownByChunks(a, d, cache) && (forall path | path in b :: path in d)
  {
    forall path | path in b ensures path in d && d[path] == b[path] {
      if path != ChunkPath(cache, id) {
        SameElsewhere(b, d, ChunkPath(cache, id), path);
      }
    }
    forall path | path in d && path !in b ensures path == ChunkPath(cache, id) {
      if path != ChunkPath(cache, id) {
        SameElsewhere(b, d, ChunkPath(cache, id), path);
      }
    }
  }

  function NewPaths(a: Files, b: Files): set<Path> {
    b.Keys - a.Keys
  }

  lemma ChunkPathsFit(record: ProviderRecord, chunk: Chunk)
    requires chunk in ChunksOf(record)
    ensures PathsFit(BundleFiles(record)) ==> PathsFit(chunk.files)
  {
    forall file | file in chunk.files ensures file in BundleFiles(record) {
      ListedInChunk(ChunksOf(record), file);
    }
  }

  /** More chunk directories take away no way to have a chunk. */
  lemma StillObtainable(a: Files, files: Files, options: Options, cache: string, record: ProviderRecord, chunk: Chunk)
    requires Pinned(record) && chunk in ChunksOf(record) && GrownByChunks(a, View(files), cache)
    ensures ChunkObtainable(a, options, cache, chunk) ==> ChunkObtainable(files, options, cache, chunk)
    ensures ChunkPath(cache, chunk.chunkId) in files <==> ChunkPath(cache, chunk.chunkId) in View(files)
  {
    hide ChunkServed, Pinned;
    PinnedChunkFiles(record, chunk);
    if s, path :| 0 <= s < |options.seeds| && SeedHolds(a, options.seeds[s], chunk, path) {
      assert Holds(TreeAt(a, path), chunk.files[0]);
      assert path in a && path in View(files) && View(files)[path] == a[path] && files[path] == a[path];
      assert SeedHolds(files, options.seeds[s], chunk, path);
    }
  }

  /** One more path is one more new path. */
  lemma OneNewPath(a: Files, b: Files, d: Files, path: Path)
    requires a.Keys <= b.Keys <= d.Keys && d.Keys - {path} == b.Keys - {path}
    ensures |NewPaths(a, d)| == |NewPaths(a, b)| + if path in d && path !in b then 1 else 0
  {
    OneMore(a.Keys, b.Keys, d.Keys, path);
  }

  lemma OneMore(a: set<Path>, b: set<Path>, d: set<Path>, path: Path)
    requires a <= b <= d && d - {path} == b - {path}
    ensures |d - a| == |b - a| + if path in d && path !in b then 1 else 0
  {
    if path in d && path !in b {
      forall p | p in d && p != path ensures p in b {
        assert p in d - {path};
      }
      assert d - a == b - a + {path};
    } else {
      forall p | p in d ensures p in b {
        assert p != path ==> p in d - {path};
      }
      assert d == b;
    }
  }

  lemma SameKeys(b: Files, d: Files, path: Path)
    requires d - {path} == b - {path}
    ensures d.Keys - {path} == b.Keys - {path}
  {
    assert (d - {path}).Keys == d.Keys - {path} && (b - {path}).Keys == b.Keys - {path};
  }

  /** What ensuring one chunk adds. */
  lemma ChunkAdded(a: Files, b: Files, d: Files, cache: string, id: Digest)
    requires GrownByChunks(a, b, cache)
    requires d - {ChunkPath(cache, id)} == b - {ChunkPath(cache, id)} && (ChunkPath(cache, id) in b ==> d == b)
    ensures GrownByChunks(a, d, cache) && (forall path | path in b :: path in d)
    ensures |NewPaths(a, d)| == |NewPaths(a, b)| + if ChunkPath(cache, id) in d && ChunkPath(cache, id) !in b then 1 else 0
  {
    GrownAfter(a, b, d, cache, id);
    SameKeys(b, d, ChunkPath(cache, id));
    OneNewPath(a, b, d, ChunkPath(cache, id));
  }

  lemma NothingAdded(files: Files, cache: string)
    ensures GrownByChunks(files, files, cache) && NewPaths(files, files) == {}
  {
  }

  method EnsureRecordChunks(fs: FileSystem, options: Options, record: ProviderRecord, manifest: ChunkManifest)
    returns (err: Option<Error>, downloaded: nat, bytes: int, seeded: nat)
    requires fs.Valid() && record in fs.c.pin.inputs.providers && Pinned(record) && manifest == ManifestOf(record)
    modifies fs`files, fs`inodes, fs`trace, fs`log
    ensures fs.Valid() && fs.Continues() && GrownByChunks(old(fs.Now()), fs.Now(), fs.c.cache)
    ensures err.None? ==> ChunksPresent(fs.Now(), fs.c.cache, record)
    ensures err.None? && (forall chunk | chunk in ChunksOf(record) :: ChunkPath(fs.c.cache, chunk.chunkId) in old(fs.Now()))
      ==> fs.Now() == old(fs.Now()) && downloaded == 0 && bytes == 0 && seeded == 0
    ensures downloaded + seeded == |NewPaths(old(fs.Now()), fs.Now())|
    ensures (&& PathsFit(BundleFiles(record))
             && forall chunk | chunk in ChunksOf(record) :: ChunkObtainable(old(fs.Now()), options, fs.c.cache, chunk))
      ==> err.None?
  {
    hide Follows, Allowed, Effect, PinValid, InodesSound, Pinned, ChunkServed, Exact, Seedable, PathsFit, GrownByChunks,
      NewPaths;
    NothingAdded(fs.Now(), fs.c.cache);
    var chunks, i := manifest.chunks, 0;
    downloaded, bytes, seeded := 0, 0, 0;
    while i < |chunks|
      invariant i <= |chunks| && fs.Valid() && fs.Continues()
      invariant GrownByChunks(old(fs.Now()), fs.Now(), fs.c.cache)
      invariant forall k | 0 <= k < i :: ChunkPath(fs.c.cache, chunks[k].chunkId) in fs.Now()
      invariant (forall chunk | chunk in chunks :: ChunkPath(fs.c.cache, chunk.chunkId) in old(fs.Now()))
        ==> fs.Now() == old(fs.Now()) && downloaded == 0 && bytes == 0 && seeded == 0
      invariant downloaded + seeded == |NewPaths(old(fs.Now()), fs.Now())|
    {
      ghost var before := fs.Now();
      assert chunks[i] in ChunksOf(record);
      ChunkPathsFit(record, chunks[i]);
      StillObtainable(old(fs.Now()), fs.files, options, fs.c.cache, record, chunks[i]);
      var result, linked := EnsureChunk(fs, options, record, chunks[i]);
      ChunkAdded(old(fs.Now()), before, fs.Now(), fs.c.cache, chunks[i].chunkId);
      if result.Failed? {
        return Some(result.error), downloaded, bytes, seeded;
      }
      if result.value {
        downloaded, bytes := downloaded + 1, bytes + chunks[i].archiveSizeBytes;
      }
      if linked {
        seeded := seeded + 1;
      }
      i := i + 1;
    }
    return None, downloaded, bytes, seeded;
  }

  lemma PresentStays(a: Files, b: Files, cache: string, record: ProviderRecord)
    requires ChunksPresent(a, cache, record) && forall path | path in a :: path in b
    ensures ChunksPresent(b, cache, record)
  {
  }
}
