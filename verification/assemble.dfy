/**
 Publishing one bundle (`internal/providersync/assemble.go:52-91`): chunk files
 linked into a staged directory, described against the pin, renamed into place.
*/
module Assembly {
  import opened ProviderInputs
  import opened Bundles
  import opened Moves
  import opened InstallInvariants
  import opened SyncFiles
  import opened ChunkInstall

  /** The cache holds the pinned bytes of every chunk file. */
  ghost predicate CachedAll(files: Files, cache: string, record: ProviderRecord) {
    forall chunk, file | chunk in ChunksOf(record) && file in chunk.files ::
      Holds(TreeAt(files, ChunkPath(cache, chunk.chunkId)), file)
  }

  ghost predicate CanAssemble(files: Files, cache: string, record: ProviderRecord) {
    CachedAll(files, cache, record) && PathsFit(BundleFiles(record)) && Describable(record, Listed(record))
  }

  lemma CachedElsewhere(a: Files, b: Files, cache: string, record: ProviderRecord, path: Path)
    requires b == a - {path} && path.directory.Installed?
    ensures CachedAll(a, cache, record) <==> CachedAll(b, cache, record)
  {
    hide Holds;
    forall chunk | chunk in ChunksOf(record)
      ensures TreeAt(a, ChunkPath(cache, chunk.chunkId)) == TreeAt(b, ChunkPath(cache, chunk.chunkId)) {
    }
  }

  ghost predicate LinkedChunk(files: Files, cache: string, chunk: Chunk, tree: Tree) {
    forall file | file in chunk.files :: SameNode(files, cache, chunk, file, tree)
  }

  ghost predicate Covers(a: Tree, b: Tree) {
    forall path | path in a :: path in b && b[path] == a[path]
  }

  lemma ViewTree(files: Files, path: Path)
    requires Settled(path)
    ensures TreeAt(View(files), path) == TreeAt(files, path)
  {
  }

  lemma LinkedStays(files: Files, cache: string, chunk: Chunk, a: Tree, b: Tree)
    requires LinkedChunk(files, cache, chunk, a) && Covers(a, b)
    ensures LinkedChunk(files, cache, chunk, b)
  {
    forall file | file in chunk.files ensures SameNode(files, cache, chunk, file, b) {
      assert SameNode(files, cache, chunk, file, a);
    }
  }

  /** Links one chunk's files below the staged bundle. */
  method LinkChunk(fs: FileSystem, record: ProviderRecord, chunk: Chunk, staging: Path) returns (ok: bool)
    requires fs.Valid() && staging.directory.Staging? && chunk in ChunksOf(record)
    requires DistinctPaths(chunk.files) && Paths(chunk.files) !! TreeAt(fs.files, staging).Keys
    requires TreeAt(fs.files, staging).Keys <= Paths(BundleFiles(record))
    modifies fs`files, fs`inodes, fs`trace, fs`log
    ensures fs.Valid() && fs.Untouched() && fs.files - {staging} == old(fs.files - {staging})
    ensures ok ==> TreeAt(fs.files, staging).Keys == old(TreeAt(fs.files, staging)).Keys + Paths(chunk.files)
    ensures ok ==> Covers(old(TreeAt(fs.files, staging)), TreeAt(fs.files, staging))
    ensures ok ==> LinkedChunk(fs.Now(), fs.c.cache, chunk, TreeAt(fs.files, staging))
    ensures ok && (chunk.files != [] || (staging in old(fs.files) && old(fs.files)[staging].Folder?))
      ==> staging in fs.files && fs.files[staging].Folder?
    ensures CachedAll(fs.Now(), fs.c.cache, record) && PathsFit(BundleFiles(record)) ==> ok
  {
    hide Allowed, Effect, Follows, PinValid, InodesSound, Placeable, Clash, DistinctPaths, PathsFit, CachedAll, SameNode;
    var files, i := chunk.files, 0;
    var source := ChunkPath(fs.c.cache, chunk.chunkId);
    ViewTree(fs.files, source);
    ghost var cached, start := TreeAt(fs.files, source), TreeAt(fs.files, staging);
    assert files[..0] == [];
    while i < |files|
      invariant i <= |files|
      invariant fs.Valid() && fs.Untouched() && fs.files - {staging} == old(fs.files - {staging})
      invariant TreeAt(fs.files, source) == cached && TreeAt(fs.Now(), source) == cached
      invariant TreeAt(fs.files, staging).Keys == start.Keys + Paths(files[..i])
      invariant Covers(start, TreeAt(fs.files, staging))
      invariant forall k | 0 <= k < i :: SameNode(fs.Now(), fs.c.cache, chunk, files[k], TreeAt(fs.files, staging))
      invariant (i > 0 || (staging in old(fs.files) && old(fs.files)[staging].Folder?))
        ==> staging in fs.files && fs.files[staging].Folder?
    {
      ghost var tree, before := TreeAt(fs.files, staging), fs.files;
      NextFits(record, chunk, tree, start, i);
      CachedOne(fs.Now(), fs.c.cache, record, chunk, i);
      ok := fs.LinkOrCopy(source, files[i].path, staging);
      SameElsewhere(before, fs.files, staging, source);
      ViewTree(fs.files, source);
      if !ok {
        return;
      }
      PathsStep(files, i);
      NodesStay(fs.Now(), fs.c.cache, chunk, tree, TreeAt(fs.files, staging), i);
      i := i + 1;
    }
    assert files[..i] == files;
    return true;
  }

  lemma CachedOne(files: Files, cache: string, record: ProviderRecord, chunk: Chunk, i: nat)
    requires chunk in ChunksOf(record) && i < |chunk.files|
    ensures CachedAll(files, cache, record) ==> Holds(TreeAt(files, ChunkPath(cache, chunk.chunkId)), chunk.files[i])
  {
  }

  /** The next file of a chunk is new to the bundle and clashes with nothing there. */
  lemma NextFits(record: ProviderRecord, chunk: Chunk, tree: Tree, start: Tree, i: nat)
    requires chunk in ChunksOf(record) && i < |chunk.files| && DistinctPaths(chunk.files)
    requires start.Keys <= Paths(BundleFiles(record)) && Paths(chunk.files) !! start.Keys
    requires tree.Keys == start.Keys + Paths(chunk.files[..i])
    ensures chunk.files[i].path !in tree
    ensures PathsFit(BundleFiles(record)) ==> Placeable(tree, chunk.files[i].path)
  {
    hide Clash;
    var file, all := chunk.files[i], BundleFiles(record);
    ListedInChunk(ChunksOf(record), file);
    assert file.path in Paths(chunk.files);
    forall path | path in tree ensures path != file.path && (PathsFit(all) ==> !Clash(file.path, path)) {
      if path in start {
        var other :| other in all && other.path == path;
      } else {
        var k :| 0 <= k < i && chunk.files[..i][k].path == path;
        ListedInChunk(ChunksOf(record), chunk.files[k]);
      }
    }
  }

  lemma NodesStay(files: Files, cache: string, chunk: Chunk, a: Tree, b: Tree, i: nat)
    requires i < |chunk.files| && chunk.files[i].path !in a && chunk.files[i].path in b
    requires b == a[chunk.files[i].path := b[chunk.files[i].path]]
    requires chunk.files[i].path in TreeAt(files, ChunkPath(cache, chunk.chunkId))
    requires var node := TreeAt(files, ChunkPath(cache, chunk.chunkId))[chunk.files[i].path];
             && (b[chunk.files[i].path].Regular? <==> node.Regular?)
             && (node.Regular? ==> b[chunk.files[i].path].content == node.content)
    requires forall k | 0 <= k < i :: SameNode(files, cache, chunk, chunk.files[k], a)
    ensures Covers(a, b)
    ensures forall k | 0 <= k < i + 1 :: SameNode(files, cache, chunk, chunk.files[k], b)
  {
    forall k | 0 <= k < i + 1 ensures SameNode(files, cache, chunk, chunk.files[k], b) {
      if k < i {
        assert SameNode(files, cache, chunk, chunk.files[k], a);
      }
    }
  }

  method LinkBundle(fs: FileSystem, record: ProviderRecord, manifest: ChunkManifest, staging: Path)
    returns (ok: bool)
    requires fs.Valid() && staging.directory.Staging? && Pinned(record) && manifest == ManifestOf(record)
    requires staging !in fs.files
    modifies fs`files, fs`inodes, fs`trace, fs`log
    ensures fs.Valid() && fs.Untouched()
    ensures ok ==> staging in fs.files && fs.files[staging].Folder?
    ensures ok ==> Linked(fs.Now(), fs.c.cache, record, fs.files[staging].tree)
    ensures CachedAll(fs.Now(), fs.c.cache, record) && PathsFit(BundleFiles(record)) ==> ok
  {
    hide Allowed, Effect, Follows, PinValid, InodesSound, DistinctPaths, PathsFit, CachedAll, Pinned, LinkedChunk, Covers;
    var chunks, i := manifest.chunks, 0;
    PinnedFiles(record);
    assert chunks[..0] == [];
    while i < |chunks|
      invariant i <= |chunks| && fs.Valid() && fs.Untouched()
      invariant TreeAt(fs.files, staging).Keys == Paths(FilesOf(chunks[..i]))
      invariant i > 0 ==> staging in fs.files && fs.files[staging].Folder?
      invariant forall k | 0 <= k < i :: LinkedChunk(fs.Now(), fs.c.cache, chunks[k], TreeAt(fs.files, staging))
    {
      ghost var tree := TreeAt(fs.files, staging);
      FilesOfStep(chunks, i);
      RejectedChunk(chunks, i);
      PrefixPaths(chunks, i);
      PinnedChunkFiles(record, chunks[i]);
      ok := LinkChunk(fs, record, chunks[i], staging);
      if !ok {
        return;
      }
      DistinctAppend(FilesOf(chunks[..i]), chunks[i].files);
      forall k | 0 <= k < i ensures LinkedChunk(fs.Now(), fs.c.cache, chunks[k], TreeAt(fs.files, staging)) {
        LinkedStays(fs.Now(), fs.c.cache, chunks[k], tree, TreeAt(fs.files, staging));
      }
      i := i + 1;
    }
    assert chunks[..i] == chunks;
    AllLinked(fs.Now(), fs.c.cache, record, TreeAt(fs.files, staging));
    return true;
  }

  lemma PrefixPaths(chunks: seq<Chunk>, i: nat)
    requires i <= |chunks|
    ensures Paths(FilesOf(chunks[..i])) <= Paths(FilesOf(chunks))
  {
    FilesOfPrefix(chunks, i);
    var prefix, all := FilesOf(chunks[..i]), FilesOf(chunks);
    forall file | file in prefix ensures file in all {
      var k :| 0 <= k < |prefix| && prefix[k] == file;
      assert all[k] == file;
    }
  }

  lemma AllLinked(files: Files, cache: string, record: ProviderRecord, tree: Tree)
    requires tree.Keys == Paths(BundleFiles(record))
    requires forall k | 0 <= k < |ChunksOf(record)| :: LinkedChunk(files, cache, ChunksOf(record)[k], tree)
    ensures Linked(files, cache, record, tree)
  {
    forall chunk, file | chunk in ChunksOf(record) && file in chunk.files
      ensures SameNode(files, cache, chunk, file, tree)
    {
      var k :| 0 <= k < |ChunksOf(record)| && ChunksOf(record)[k] == chunk;
      assert LinkedChunk(files, cache, ChunksOf(record)[k], tree);
    }
  }

  /** The pinned bytes linked are the pinned bytes. */
  lemma LinkedHoldsAll(files: Files, cache: string, record: ProviderRecord, tree: Tree)
    requires CachedAll(files, cache, record) && Linked(files, cache, record, tree)
    ensures Exact(tree, BundleFiles(record))
  {
    var all := BundleFiles(record);
    forall i | 0 <= i < |all| ensures Holds(tree, all[i]) {
      ListedInChunk(ChunksOf(record), all[i]);
      var chunk :| chunk in ChunksOf(record) && all[i] in chunk.files;
      assert SameNode(files, cache, chunk, all[i], tree);
      assert Holds(TreeAt(files, ChunkPath(cache, chunk.chunkId)), all[i]);
    }
  }

  method Assemble(fs: FileSystem, record: ProviderRecord, manifest: ChunkManifest)
    returns (entry: Outcome<ActiveProvider>)
    requires fs.Valid() && record in fs.c.pin.inputs.providers && Pinned(record) && manifest == ManifestOf(record)
    modifies fs`files, fs`inodes, fs`trace, fs`log
    ensures fs.Valid() && fs.Continues()
    ensures fs.Now() - {BundlePath(fs.c.root, record)} == old(fs.Now()) - {BundlePath(fs.c.root, record)}
    ensures entry.Done? ==> Described(fs.Now(), fs.c.root, record) && entry.value == EntryOf(record)
    ensures Described(old(fs.Now()), fs.c.root, record) ==> entry.Done? && fs.Now() == old(fs.Now())
    ensures CanAssemble(old(fs.Now()), fs.c.cache, record) ==> entry.Done?
  {
    hide Allowed, Effect, Follows, PinValid, InodesSound, PathsFit, CachedAll, Pinned, Describable, Describe, Linked;
    var final := BundlePath(fs.c.root, record);
    var tree := TreeAt(fs.files, final);
    ViewTree(fs.files, final);
    if final in fs.files {
      entry := DescribeBundle(tree, record, manifest);
      DescribedEntry(tree, record, Listed(record));
      FileNotDescribed(record);
      if entry.Done? {
        return;
      }
      DropAllowed(fs.c, fs.Now(), record);
      ghost var before := fs.Now();
      fs.Remove(final, DropBundle(record));
      CachedElsewhere(before, fs.Now(), fs.c.cache, record, final);
    }
    entry := Publish(fs, record, manifest);
  }

  lemma FileNotDescribed(record: ProviderRecord)
    ensures Describe(map[], record, Listed(record)).Failed?
  {
  }

  lemma DropAllowed(c: Context, files: Files, record: ProviderRecord)
    requires record in c.pin.inputs.providers && !Described(files, c.root, record)
    ensures Allowed(c, files, DropBundle(record))
    ensures Effect(c, files, DropBundle(record)) == files - {BundlePath(c.root, record)}
  {
  }

  lemma PublishAllowed(c: Context, files: Files, record: ProviderRecord, tree: Tree)
    requires record in c.pin.inputs.providers && Pinned(record) && BundlePath(c.root, record) !in files
    requires Linked(files, c.cache, record, tree) && Describe(tree, record, Listed(record)).Done?
    ensures Allowed(c, files, PublishBundle(record, tree))
    ensures Effect(c, files, PublishBundle(record, tree)) == files[BundlePath(c.root, record) := Folder(tree)]
  {
  }

  method Publish(fs: FileSystem, record: ProviderRecord, manifest: ChunkManifest)
    returns (entry: Outcome<ActiveProvider>)
    requires fs.Valid() && record in fs.c.pin.inputs.providers && Pinned(record) && manifest == ManifestOf(record)
    requires BundlePath(fs.c.root, record) !in fs.Now()
    modifies fs`files, fs`inodes, fs`trace, fs`log
    ensures fs.Valid() && fs.Continues()
    ensures fs.Now() - {BundlePath(fs.c.root, record)} == old(fs.Now()) - {BundlePath(fs.c.root, record)}
    ensures entry.Done? ==> Described(fs.Now(), fs.c.root, record) && entry.value == EntryOf(record)
    ensures CanAssemble(old(fs.Now()), fs.c.cache, record) ==> entry.Done?
  {
    hide Allowed, Effect, Follows, PinValid, InodesSound, PathsFit, CachedAll, Pinned, Describable, Describe, Linked, Exact;
    var final := BundlePath(fs.c.root, record);
    var staging := Path(Staging(fs.c.root), StagedBundle(record.providerId, record.bundleSha256));
    ScratchAllowed(fs.c, fs.Now());
    fs.Remove(staging, Scratch);
    var ok := LinkBundle(fs, record, manifest, staging);
    if ok {
      entry := PublishStaged(fs, record, manifest, staging);
    } else {
      entry := Failed(Unavailable);
    }
    ScratchAllowed(fs.c, fs.Now());
    fs.Remove(staging, Scratch);
  }

  method PublishStaged(fs: FileSystem, record: ProviderRecord, manifest: ChunkManifest, staging: Path)
    returns (entry: Outcome<ActiveProvider>)
    requires fs.Valid() && record in fs.c.pin.inputs.providers && Pinned(record) && manifest == ManifestOf(record)
    requires BundlePath(fs.c.root, record) !in fs.Now()
    requires staging in fs.files && fs.files[staging].Folder? && !Settled(staging)
    requires Linked(fs.Now(), fs.c.cache, record, fs.files[staging].tree)
    modifies fs`files, fs`trace, fs`log
    ensures fs.Valid() && fs.Continues()
    ensures fs.Now() - {BundlePath(fs.c.root, record)} == old(fs.Now()) - {BundlePath(fs.c.root, record)}
    ensures entry.Done? ==> Described(fs.Now(), fs.c.root, record) && entry.value == EntryOf(record)
    ensures CanAssemble(old(fs.Now()), fs.c.cache, record) ==> entry.Done?
  {
    hide Allowed, Effect, Follows, PinValid, InodesSound, PathsFit, CachedAll, Pinned, Describable, Describe, Linked;
    var tree := fs.files[staging].tree;
    entry := DescribeBundle(tree, record, manifest);
    DescribedEntry(tree, record, Listed(record));
    WouldDescribe(fs.Now(), fs.c.cache, record, tree);
    if entry.Done? {
      PublishAllowed(fs.c, fs.Now(), record, tree);
      fs.Rename(staging, BundlePath(fs.c.root, record), PublishBundle(record, tree));
    }
  }

  lemma WouldDescribe(files: Files, cache: string, record: ProviderRecord, tree: Tree)
    requires Pinned(record) && Linked(files, cache, record, tree)
    ensures CachedAll(files, cache, record) && Describable(record, Listed(record)) ==>
              Describe(tree, record, Listed(record)).Done?
  {
    hide Linked, CachedAll, Describable, Describe, Pinned;
    if CachedAll(files, cache, record) {
      LinkedHoldsAll(files, cache, record, tree);
      ExactDescribed(record, tree);
    }
  }
}
