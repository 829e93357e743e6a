/**
 Publishing one chunk (`internal/providersync/chunks.go`): seeded from a local
 copy or downloaded and unpacked, staged, verified and renamed into the cache.
*/
module ChunkInstall {
  import opened Wrappers
  import opened ProviderInputs
  import opened Bundles
  import opened Moves
  import opened SyncFiles

  /** A run's settings; `source` is None when the pin names no release and no source is given. */
  datatype Options = Options(
    seeds: seq<string>, source: Option<map<AssetName, Content>>, full: bool, available: int, now: int)

  // ---------------------------------------------------------------------
  // What a source has to serve.
  // ---------------------------------------------------------------------

  predicate AssetServed(options: Options, name: AssetName, sha256: Digest, size: int) {
    && options.source.Some? && name in options.source.value
    && options.source.value[name].size == size && OfContent(options.source.value[name]) == sha256
  }

  predicate EntryFits(entry: ArchiveEntry, file: ChunkFile) {
    && entry.regular && entry.name == file.path
    && entry.content.size == file.sizeBytes && OfContent(entry.content) == file.sha256
  }

  predicate ArchiveFits(archive: Content, files: seq<ChunkFile>) {
    && archive.decoded.ArchiveText? && archive.decoded.ended && |archive.decoded.entries| == |files|
    && forall i | 0 <= i < |files| :: EntryFits(archive.decoded.entries[i], files[i])
  }

  /** No listed file is a directory on another's way. */
  predicate PathsFit(files: seq<ChunkFile>) {
    forall a, b | a in files && b in files :: !Clash(a.path, b.path)
  }

  predicate ChunkServed(options: Options, chunk: Chunk) {
    && AssetServed(options, chunk.archive, chunk.archiveSha256, chunk.archiveSizeBytes)
    && ArchiveFits(options.source.value[chunk.archive], chunk.files)
    && PathsFit(chunk.files)
  }

  // ---------------------------------------------------------------------
  // Growing a directory file by file.
  // ---------------------------------------------------------------------

  lemma ExactStep(tree: Tree, files: seq<ChunkFile>, i: nat, grown: Tree)
    requires i < |files| && Exact(tree, files[..i]) && files[i].path !in tree
    requires files[i].path in grown && grown == tree[files[i].path := grown[files[i].path]]
    requires Holds(grown, files[i])
    ensures Exact(grown, files[..i + 1])
  {
    hide Paths, SizeOf;
    PathsStep(files, i);
    var front, next := files[..i], files[..i + 1];
    assert next == front + [files[i]];
    forall k | 0 <= k < |next| ensures Holds(grown, next[k]) {
      if k < i {
        assert Holds(tree, front[k]) && next[k] == front[k];
      }
    }
    assert grown.Keys == tree.Keys + {files[i].path};
  }

  /** Later files of distinct, fitting paths can always be placed. */
  lemma NextPlaceable(tree: Tree, files: seq<ChunkFile>, i: nat)
    requires i < |files| && DistinctPaths(files) && tree.Keys == Paths(files[..i])
    ensures files[i].path !in tree
    ensures PathsFit(files) ==> Placeable(tree, files[i].path)
  {
    forall path | path in tree ensures path != files[i].path && (PathsFit(files) ==> !Clash(files[i].path, path)) {
      var k :| 0 <= k < i && files[..i][k].path == path;
      assert files[k] in files && files[i] in files;
    }
  }

  lemma EmptyExact(files: seq<ChunkFile>)
    ensures files[..0] == [] && Exact(map[], files[..0])
  {
  }

  // ---------------------------------------------------------------------
  // Download.
  // ---------------------------------------------------------------------

  method FetchVerified(options: Options, name: AssetName, sha256: Digest, size: int)
    returns (fetched: Outcome<Content>)
    ensures fetched.Done? <==> AssetServed(options, name, sha256, size)
    ensures fetched.Done? ==> fetched.value == options.source.value[name]
    ensures fetched.Failed? ==>
      fetched.error == (if options.source.None? then SourceRequired
                        else if name !in options.source.value then FetchFailed else ChunkInvalid)
  {
    if options.source.None? {
      return Failed(SourceRequired);
    }
    if name !in options.source.value {
      return Failed(FetchFailed);
    }
    var body := options.source.value[name];
    if body.size != size || OfContent(body) != sha256 {
      return Failed(ChunkInvalid);
    }
    return Done(body);
  }

  method Download(fs: FileSystem, options: Options, chunk: Chunk, archive: Path) returns (err: Option<Error>)
    requires fs.Valid() && !Settled(archive)
    modifies fs`files, fs`trace, fs`log
    ensures fs.Valid() && fs.Untouched() && fs.files - {archive} == old(fs.files - {archive})
    ensures err.None? <==> AssetServed(options, chunk.archive, chunk.archiveSha256, chunk.archiveSizeBytes)
    ensures err.None? ==>
      archive in fs.files && fs.files[archive] == File(options.source.value[chunk.archive])
  {
    hide Allowed, Effect, Follows, PinValid, InodesSound;
    ScratchAllowed(fs.c, fs.Now());
    fs.Put(archive, File(EMPTY), Scratch);
    if options.source.Some? && chunk.archive in options.source.value {
      fs.Put(archive, File(options.source.value[chunk.archive]), Scratch);
    }
    var fetched := FetchVerified(options, chunk.archive, chunk.archiveSha256, chunk.archiveSizeBytes);
    return if fetched.Done? then None else Some(fetched.error);
  }

  /** Only the regular files the manifest lists, in order, with exact bytes. */
  method ExtractChunk(fs: FileSystem, archive: Path, target: Path, chunk: Chunk) returns (err: Option<Error>)
    requires fs.Valid() && !Settled(target) && archive != target && target !in fs.files
    requires archive in fs.files && fs.files[archive].File?
    requires DistinctPaths(chunk.files) && chunk.files != []
    modifies fs`files, fs`inodes, fs`trace, fs`log
    ensures fs.Valid() && fs.Untouched() && fs.files - {target} == old(fs.files - {target})
    ensures err.None? ==> target in fs.files && fs.files[target].Folder?
    ensures err.None? ==> Exact(TreeAt(fs.files, target), chunk.files)
    ensures err.None? ==> ArchiveFits(old(fs.files[archive].content), chunk.files)
    ensures ArchiveFits(old(fs.files[archive].content), chunk.files) && PathsFit(chunk.files) ==> err.None?
  {
    hide Allowed, Effect, Follows, PinValid, InodesSound, Placeable, Clash, Exact, DistinctPaths, PathsFit;
    var content := fs.files[archive].content;
    if !content.decoded.ArchiveText? {
      return Some(ChunkInvalid);
    }
    var entries, files, i := content.decoded.entries, chunk.files, 0;
    EmptyExact(files);
    while i < |files|
      invariant i <= |files| && i <= |entries|
      invariant fs.Valid() && fs.Untouched() && fs.files - {target} == old(fs.files - {target})
      invariant Exact(TreeAt(fs.files, target), files[..i])
      invariant i > 0 ==> target in fs.files && fs.files[target].Folder?
      invariant forall k | 0 <= k < i :: EntryFits(entries[k], files[k])
    {
      if i >= |entries| || !entries[i].regular || entries[i].name != files[i].path
        || entries[i].content.size != files[i].sizeBytes
      {
        return Some(ChunkInvalid);
      }
      ghost var tree := TreeAt(fs.files, target);
      ExactKeys(tree, files[..i]);
      NextPlaceable(tree, files, i);
      var created := fs.CreateFile(target, files[i].path, entries[i].content);
      if !created {
        return Some(Unavailable);
      }
      if OfContent(entries[i].content) != files[i].sha256 {
        return Some(ChunkInvalid);
      }
      ExactStep(tree, files, i, TreeAt(fs.files, target));
      i := i + 1;
    }
    assert files[..i] == files;
    if |entries| > |files| || !content.decoded.ended {
      return Some(ChunkInvalid);
    }
    return None;
  }

  lemma ExactKeys(tree: Tree, files: seq<ChunkFile>)
    requires Exact(tree, files)
    ensures tree.Keys == Paths(files)
  {
  }

  // ---------------------------------------------------------------------
  // Seeds.
  // ---------------------------------------------------------------------

  /** `<seed>/<id>`, `<seed>/chunks/<id>` or a bundle installed under the seed. */
  predicate SeedCandidate(files: Files, seed: string, id: Digest, path: Path) {
    || path == ChunkPath(seed, id) || path == ChunkPath(seed + "/chunks", id)
    || (path in files && path.directory.Installed? && path.directory.base == seed)
  }

  predicate Complete(files: Files, path: Path, chunk: Chunk) {
    HoldsAll(TreeAt(files, path), chunk.files)
  }

  /** Some seed holds a complete copy of the chunk. */
  ghost predicate Seedable(files: Files, options: Options, chunk: Chunk) {
    exists s, path :: 0 <= s < |options.seeds| && SeedHolds(files, options.seeds[s], chunk, path)
  }

  ghost predicate SeedHolds(files: Files, seed: string, chunk: Chunk, path: Path) {
    SeedCandidate(files, seed, chunk.chunkId, path) && Complete(files, path, chunk)
  }

  lemma SameSeeds(a: Files, b: Files, options: Options, chunk: Chunk, staged: Path)
    requires staged.directory.Staging? && a - {staged} == b - {staged}
    ensures Seedable(a, options, chunk) <==> Seedable(b, options, chunk)
  {
    forall seed, path ensures SeedHolds(a, seed, chunk, path) <==> SeedHolds(b, seed, chunk, path) {
      if path != staged {
        SameElsewhere(a, b, staged, path);
      }
    }
  }

  method SeedComplete(files: Files, path: Path, chunk: Chunk) returns (complete: bool)
    ensures complete == Complete(files, path, chunk)
  {
    var i := 0;
    while i < |chunk.files|
      invariant i <= |chunk.files| && forall k | 0 <= k < i :: Holds(TreeAt(files, path), chunk.files[k])
    {
      if !Holds(TreeAt(files, path), chunk.files[i]) {
        return false;
      }
      i := i + 1;
    }
    return true;
  }

  /** A complete copy of the chunk under the seed, if there is one. */
  method SeedSource(files: Files, seed: string, chunk: Chunk) returns (source: Option<Path>)
    ensures source.Some? ==>
      SeedCandidate(files, seed, chunk.chunkId, source.value) && Complete(files, source.value, chunk)
    ensures source.None? ==>
      forall path | SeedCandidate(files, seed, chunk.chunkId, path) :: !Complete(files, path, chunk)
  {
    var complete := SeedComplete(files, ChunkPath(seed, chunk.chunkId), chunk);
    if complete {
      return Some(ChunkPath(seed, chunk.chunkId));
    }
    complete := SeedComplete(files, ChunkPath(seed + "/chunks", chunk.chunkId), chunk);
    if complete {
      return Some(ChunkPath(seed + "/chunks", chunk.chunkId));
    }
    var bundles := set path | path in files && path.directory.Installed? && path.directory.base == seed;
    ghost var all := bundles;
    while bundles != {}
      invariant bundles <= all && forall path | path in all - bundles :: !Complete(files, path, chunk)
      decreases |bundles|
    {
      var bundle :| bundle in bundles;
      complete := SeedComplete(files, bundle, chunk);
      if complete {
        return Some(bundle);
      }
      bundles := bundles - {bundle};
    }
    return None;
  }

  /** Some(true) when a seed held the chunk and every file was linked or copied. */
  method SeedChunk(fs: FileSystem, options: Options, chunk: Chunk, target: Path) returns (seeded: Outcome<bool>)
    requires fs.Valid() && target.directory.Staging? && target !in fs.files
    requires DistinctPaths(chunk.files) && chunk.files != []
    modifies fs`files, fs`inodes, fs`trace, fs`log
    ensures fs.Valid() && fs.Untouched() && fs.files - {target} == old(fs.files - {target})
    ensures seeded == Done(true) ==> target in fs.files && fs.files[target].Folder?
    ensures seeded == Done(true) ==> Exact(TreeAt(fs.files, target), chunk.files)
    ensures seeded == Done(false) ==> fs.files == old(fs.files)
    ensures seeded == Done(false) <==> !Seedable(old(fs.files), options, chunk)
    ensures PathsFit(chunk.files) ==> seeded.Done?
  {
    hide Allowed, Effect, Follows, PinValid, InodesSound, Complete;
    var s := 0;
    while s < |options.seeds|
      invariant s <= |options.seeds| && fs.Valid() && fs.Untouched() && fs.files == old(fs.files)
      invariant forall k, path | 0 <= k < s :: !SeedHolds(fs.files, options.seeds[k], chunk, path)
    {
      var source := SeedSource(fs.files, options.seeds[s], chunk);
      if source.Some? {
        assert !source.value.directory.Staging?;
        assert SeedHolds(fs.files, options.seeds[s], chunk, source.value);
        var linked := LinkAll(fs, chunk, source.value, target);
        return if linked then Done(true) else Failed(Unavailable);
      }
      s := s + 1;
    }
    return Done(false);
  }

  method LinkAll(fs: FileSystem, chunk: Chunk, source: Path, target: Path) returns (ok: bool)
    requires fs.Valid() && target.directory.Staging? && source != target && target !in fs.files
    requires DistinctPaths(chunk.files) && chunk.files != [] && Complete(fs.files, source, chunk)
    modifies fs`files, fs`inodes, fs`trace, fs`log
    ensures fs.Valid() && fs.Untouched() && fs.files - {target} == old(fs.files - {target})
    ensures ok ==> target in fs.files && fs.files[target].Folder?
    ensures ok ==> Exact(TreeAt(fs.files, target), chunk.files)
    ensures PathsFit(chunk.files) ==> ok
  {
    hide Allowed, Effect, Follows, PinValid, InodesSound, Placeable, Clash, Exact, DistinctPaths, PathsFit, HoldsAll;
    var files, i := chunk.files, 0;
    ghost var copy := TreeAt(fs.files, source);
    EmptyExact(files);
    while i < |files|
      invariant i <= |files|
      invariant fs.Valid() && fs.Untouched() && fs.files - {target} == old(fs.files - {target})
      invariant TreeAt(fs.files, source) == copy && HoldsAll(copy, files)
      invariant Exact(TreeAt(fs.files, target), files[..i])
      invariant i > 0 ==> target in fs.files && fs.files[target].Folder?
    {
      ghost var tree := TreeAt(fs.files, target);
      ExactKeys(tree, files[..i]);
      NextPlaceable(tree, files, i);
      HoldsOne(copy, files, i);
      ghost var before := fs.files;
      ok := fs.LinkOrCopy(source, files[i].path, target);
      SameElsewhere(before, fs.files, target, source);
      if !ok {
        return;
      }
      ExactStep(tree, files, i, TreeAt(fs.files, target));
      i := i + 1;
    }
    assert files[..i] == files;
    return true;
  }

  lemma HoldsOne(tree: Tree, files: seq<ChunkFile>, i: nat)
    requires HoldsAll(tree, files) && i < |files|
    ensures Holds(tree, files[i])
  {
  }

  lemma SameElsewhere(a: Files, b: Files, changed: Path, path: Path)
    requires a - {changed} == b - {changed} && path != changed
    ensures (path in a <==> path in b) && (path in a ==> a[path] == b[path]) && TreeAt(a, path) == TreeAt(b, path)
  {
    assert path in a <==> path in a - {changed};
    assert path in b <==> path in b - {changed};
  }

  // ---------------------------------------------------------------------
  // ensureChunk.
  // ---------------------------------------------------------------------

  method StageChunk(fs: FileSystem, options: Options, chunk: Chunk, archive: Path, extracted: Path)
    returns (seeded: Outcome<bool>)
    requires fs.Valid() && archive.directory.Staging? && extracted.directory.Staging? && archive != extracted
    requires DistinctPaths(chunk.files) && chunk.files != []
    modifies fs`files, fs`inodes, fs`trace, fs`log
    ensures fs.Valid() && fs.Untouched()
    ensures seeded.Done? ==> extracted in fs.files && fs.files[extracted].Folder?
    ensures seeded.Done? ==> Exact(TreeAt(fs.files, extracted), chunk.files)
    ensures seeded.Done? ==> (seeded.value <==> Seedable(old(fs.files), options, chunk))
    ensures seeded.Done? && PathsFit(chunk.files) ==> Seedable(old(fs.files), options, chunk) || ChunkServed(options, chunk)
    ensures PathsFit(chunk.files) && (Seedable(old(fs.files), options, chunk) || ChunkServed(options, chunk)) ==> seeded.Done?
  {
    hide Allowed, Effect, Follows, PinValid, InodesSound, Exact, ArchiveFits, PathsFit, DistinctPaths, Seedable;
    ScratchAllowed(fs.c, fs.Now());
    fs.Remove(extracted, Scratch);
    SameSeeds(old(fs.files), fs.files, options, chunk, extracted);
    seeded := SeedChunk(fs, options, chunk, extracted);
    if seeded.Failed? || seeded.value {
      return;
    } else {
      assert extracted !in fs.files;
      ghost var before := fs.files;
      var err := Download(fs, options, chunk, archive);
      SameElsewhere(before, fs.files, archive, extracted);
      if err.None? {
        err := ExtractChunk(fs, archive, extracted, chunk);
      }
      return if err.None? then Done(false) else Failed(err.value);
    }
  }

  /**
   Makes the cache hold the chunk. Nothing else settled changes, and a chunk
   already there is left alone, whatever is in it.
  */
  method EnsureChunk(fs: FileSystem, options: Options, record: ProviderRecord, chunk: Chunk)
    returns (downloaded: Outcome<bool>, seeded: bool)
    requires fs.Valid() && record in fs.c.pin.inputs.providers && Pinned(record) && chunk in ChunksOf(record)
    modifies fs`files, fs`inodes, fs`trace, fs`log
    ensures fs.Valid() && fs.Continues()
    ensures var path := ChunkPath(fs.c.cache, chunk.chunkId);
      && fs.Now() - {path} == old(fs.Now()) - {path}
      && (path in old(fs.Now()) ==> fs.Now() == old(fs.Now()) && downloaded == Done(false) && !seeded)
      && (downloaded.Done? ==> path in fs.Now())
      && (downloaded.Done? && path !in old(fs.Now()) ==>
            downloaded.value == !seeded && fs.Now()[path].Folder? && Exact(fs.Now()[path].tree, chunk.files))
      && (downloaded.Failed? ==> path !in fs.Now())
      && (downloaded.Done? && path !in old(fs.Now()) ==> (seeded <==> Seedable(old(fs.files), options, chunk)))
      && (PathsFit(chunk.files) ==>
            (downloaded.Done? <==>
               path in old(fs.Now()) || Seedable(old(fs.files), options, chunk) || ChunkServed(options, chunk)))
    ensures ChunkServed(options, chunk) ==> downloaded.Done?
  {
    hide Follows, PinValid, Exact, ArchiveFits, PathsFit, Pinned, Seedable;
    PinnedChunkFiles(record, chunk);
    var destination := ChunkPath(fs.c.cache, chunk.chunkId);
    if destination in fs.files {
      return Done(false), false;
    }
    var archive := Path(Staging(fs.c.cache), StagedArchive(chunk.chunkId));
    var extracted := Path(Staging(fs.c.cache), StagedChunk(chunk.chunkId));
    var staged := StageChunk(fs, options, chunk, archive, extracted);
    if staged.Done? {
      fs.Rename(extracted, destination, PublishChunk(record, chunk, fs.files[extracted].tree));
    }
    DropStaged(fs, archive, extracted);
    if staged.Failed? {
      return Failed(staged.error), false;
    }
    return Done(!staged.value), staged.value;
  }

  method DropStaged(fs: FileSystem, archive: Path, extracted: Path)
    requires fs.Valid() && archive.directory.Staging? && extracted.directory.Staging?
    modifies fs`files, fs`inodes, fs`trace, fs`log
    ensures fs.Valid() && fs.Untouched()
  {
    hide Allowed, Effect, Follows, PinValid, InodesSound;
    ScratchAllowed(fs.c, fs.Now());
    fs.Remove(archive, Scratch);
    fs.Remove(extracted, Scratch);
  }

  lemma PinnedChunkFiles(record: ProviderRecord, chunk: Chunk)
    requires Pinned(record) && chunk in ChunksOf(record)
    ensures DistinctPaths(chunk.files) && chunk.files != []
  {
    ChunkDistinct(chunk, record.providerId);
  }
}
