/**
 Removing what is damaged and what no marker references
 (`internal/providersync/check.go:92-173`).
*/
module InstallCleanup {
  import opened Wrappers
  import opened ProviderInputs
  import opened Bundles
  import opened Moves
  import opened SyncFiles
  import opened InstallCheck

  // ---------------------------------------------------------------------
  // discard.
  // ---------------------------------------------------------------------

  function ChunkPaths(cache: string, chunks: set<Digest>): set<Path> {
    set id | id in chunks :: ChunkPath(cache, id)
  }

  function BundlePaths(root: string, bundles: set<Location>): set<Path> {
    set location | location in bundles :: LocationPath(root, location)
  }

  lemma DiscardChunkAllowed(c: Context, start: Files, a: Files, id: Digest, full: bool)
    returns (record: ProviderRecord, chunk: Chunk)
    requires id in DamageOf(start, c, full).chunks && ReadyPath(c.root) !in a
    requires forall other | other in c.pin.inputs.providers :: Pinned(other)
    requires TreeAt(a, ChunkPath(c.cache, id)) == TreeAt(start, ChunkPath(c.cache, id))
    ensures chunk.chunkId == id && Allowed(c, a, DiscardChunk(record, chunk, full))
    ensures Effect(c, a, DiscardChunk(record, chunk, full)) == a - {ChunkPath(c.cache, id)}
  {
    hide Pinned;
    record, chunk :| record in c.pin.inputs.providers && chunk in ChunksOf(record)
                     && ChunkDamaged(start, c.cache, chunk, full) && chunk.chunkId == id;
    var file :| file in chunk.files && !CachedMatches(start, c.cache, chunk, file, full);
    assert !CachedMatches(a, c.cache, chunk, file, full);
  }

  lemma DiscardBundleAllowed(c: Context, start: Files, a: Files, location: Location, full: bool)
    returns (record: ProviderRecord)
    requires location in DamageOf(start, c, full).bundles && ReadyPath(c.root) !in a
    ensures Allowed(c, a, DiscardBundle(record))
    ensures Effect(c, a, DiscardBundle(record)) == a - {LocationPath(c.root, location)}
  {
    record :| record in c.pin.inputs.providers && BundleDamaged(start, c, record, full)
              && LocationOf(record) == location;
  }

  lemma DropReadyAllowed(c: Context, files: Files)
    ensures Allowed(c, files, DropReady) && Effect(c, files, DropReady) == files - {ReadyPath(c.root)}
  {
  }

  function Discarded(c: Context, bad: Damage): set<Path> {
    {ReadyPath(c.root)} + ChunkPaths(c.cache, bad.chunks) + BundlePaths(c.root, bad.bundles)
  }

  /** Only the chunk's own path, and the marker's, differ from the start. */
  lemma ChunkStillThere(c: Context, start: Files, gone: set<Digest>, id: Digest)
    requires id !in gone
    ensures var a := start - {ReadyPath(c.root)} - ChunkPaths(c.cache, gone);
            && TreeAt(a, ChunkPath(c.cache, id)) == TreeAt(start, ChunkPath(c.cache, id))
            && ReadyPath(c.root) !in a
            && a - {ChunkPath(c.cache, id)} == start - {ReadyPath(c.root)} - ChunkPaths(c.cache, gone + {id})
  {
  }

  lemma NoPaths(cache: string)
    ensures ChunkPaths(cache, {}) == {}
  {
  }

  method DiscardChunks(fs: FileSystem, bad: Damage, full: bool, ghost start: Files) returns (repaired: nat)
    requires fs.Valid() && bad == DamageOf(start, fs.c, full) && fs.Now() == start - {ReadyPath(fs.c.root)}
    requires forall record | record in fs.c.pin.inputs.providers :: Pinned(record)
    modifies fs`files, fs`trace, fs`log
    ensures fs.Valid() && fs.Continues()
    ensures fs.Now() == old(fs.Now()) - ChunkPaths(fs.c.cache, bad.chunks)
    ensures repaired == |bad.chunks|
  {
    hide Allowed, Effect, Follows, PinValid, InodesSound, Pinned, DamageOf, ChunkPaths, TreeAt;
    NoPaths(fs.c.cache);
    assert bad.chunks - bad.chunks == {};
    repaired := 0;
    var chunks := bad.chunks;
    while chunks != {}
      invariant chunks <= bad.chunks && fs.Valid() && fs.Continues() && repaired + |chunks| == |bad.chunks|
      invariant fs.Now() == old(fs.Now()) - ChunkPaths(fs.c.cache, bad.chunks - chunks)
      decreases |chunks|
    {
      var id :| id in chunks;
      ChunkStillThere(fs.c, start, bad.chunks - chunks, id);
      ghost var record, chunk := DiscardChunkAllowed(fs.c, start, fs.Now(), id, full);
      fs.Remove(ChunkPath(fs.c.cache, id), DiscardChunk(record, chunk, full));
      repaired := repaired + 1;
      assert bad.chunks - (chunks - {id}) == bad.chunks - chunks + {id};
      chunks := chunks - {id};
    }
    assert bad.chunks - chunks == bad.chunks;
  }

  method DiscardBundles(fs: FileSystem, bad: Damage, full: bool, ghost start: Files)
    requires fs.Valid() && bad == DamageOf(start, fs.c, full) && ReadyPath(fs.c.root) !in fs.Now()
    modifies fs`files, fs`trace, fs`log
    ensures fs.Valid() && fs.Continues()
    ensures fs.Now() == old(fs.Now()) - BundlePaths(fs.c.root, bad.bundles)
  {
    hide Allowed, Effect, Follows, PinValid, InodesSound, DamageOf;
    var bundles := bad.bundles;
    while bundles != {}
      invariant bundles <= bad.bundles && fs.Valid() && fs.Continues()
      invariant fs.Now() == old(fs.Now()) - BundlePaths(fs.c.root, bad.bundles - bundles)
      decreases |bundles|
    {
      var location :| location in bundles;
      ghost var record := DiscardBundleAllowed(fs.c, start, fs.Now(), location, full);
      fs.Remove(LocationPath(fs.c.root, location), DiscardBundle(record));
      assert bad.bundles - (bundles - {location}) == bad.bundles - bundles + {location};
      bundles := bundles - {location};
    }
    assert bad.bundles - bundles == bad.bundles;
  }

  /** The marker goes first, then the damaged chunks, then the damaged bundles. */
  method Discard(fs: FileSystem, bad: Damage, full: bool) returns (repaired: nat)
    requires fs.Valid() && bad == DamageOf(fs.Now(), fs.c, full)
    requires forall record | record in fs.c.pin.inputs.providers :: Pinned(record)
    modifies fs`files, fs`trace, fs`log
    ensures fs.Valid() && fs.Continues()
    ensures fs.Now() == old(fs.Now()) - Discarded(fs.c, bad)
    ensures repaired == |bad.chunks|
  {
    hide Allowed, Effect, Follows, PinValid, InodesSound, Pinned, DamageOf;
    ghost var start := fs.Now();
    DropReadyAllowed(fs.c, fs.Now());
    fs.Remove(ReadyPath(fs.c.root), DropReady);
    repaired := DiscardChunks(fs, bad, full, start);
    DiscardBundles(fs, bad, full, start);
  }

  // ---------------------------------------------------------------------
  // cleanup.
  // ---------------------------------------------------------------------

  predicate Candidate(files: Files, directory: Directory, keep: set<Name>, digestsOnly: bool, path: Path) {
    && path in files && path.directory == directory && path.name !in keep
    && (digestsOnly ==> path.name.Hex? && files[path].Folder?)
  }

  function Candidates(files: Files, directory: Directory, keep: set<Name>, digestsOnly: bool): set<Path> {
    set path | path in files && Candidate(files, directory, keep, digestsOnly, path)
  }

  /** Only cleanup moves and moves that change nothing settled. */
  ghost predicate OnlyCleans(log: seq<Move>, from: nat) {
    forall i | from <= i < |log| :: log[i].Scratch? || log[i].Cleanup?
  }

  ghost predicate MayRemove(c: Context, files: Files, marker: ReadyMarker, path: Path) {
    Settled(path) ==> Unreferenced(c, files, marker, path)
  }

  lemma CleanupAllowed(c: Context, a: Files, marker: ReadyMarker, path: Path)
    requires MarkerAt(a, c.root) == Some(marker) && MayRemove(c, a, marker, path)
    ensures var move := if Settled(path) then Cleanup(path) else Scratch;
            && Allowed(c, a, move) && (Settled(path) ==> Effect(c, a, move) == a - {path})
  {
  }

  lemma StillUnreferenced(c: Context, a: Files, b: Files, marker: ReadyMarker, gone: Path, path: Path)
    requires b == a - {gone} && path != gone && MayRemove(c, a, marker, path)
    ensures MayRemove(c, b, marker, path)
  {
  }

  method RemoveUnreferenced(
    fs: FileSystem, directory: Directory, keep: set<Name>, digestsOnly: bool, ghost marker: ReadyMarker)
    returns (removed: nat)
    requires fs.Valid() && MarkerAt(fs.Now(), fs.c.root) == Some(marker) && directory != Base(fs.c.root)
    requires forall path | path in Candidates(fs.files, directory, keep, digestsOnly) ::
               MayRemove(fs.c, fs.Now(), marker, path)
    modifies fs`files, fs`trace, fs`log
    ensures fs.Valid() && fs.Continues() && OnlyCleans(fs.log, |old(fs.log)|)
    ensures fs.files == old(fs.files) - Candidates(old(fs.files), directory, keep, digestsOnly)
    ensures fs.Now() == old(fs.Now()) - Candidates(old(fs.files), directory, keep, digestsOnly)
    ensures MarkerAt(fs.Now(), fs.c.root) == Some(marker)
    ensures removed == |Candidates(old(fs.files), directory, keep, digestsOnly)|
  {
    hide Allowed, Effect, Follows, PinValid, InodesSound, MayRemove, Candidates;
    removed := 0;
    var entries := Candidates(fs.files, directory, keep, digestsOnly);
    ghost var all := entries;
    InDirectory(fs.files, directory, keep, digestsOnly);
    while entries != {}
      invariant entries <= all && fs.Valid() && fs.Continues() && OnlyCleans(fs.log, |old(fs.log)|)
      invariant removed + |entries| == |all|
      invariant fs.files == old(fs.files) - (all - entries) && fs.Now() == old(fs.Now()) - (all - entries)
      invariant MarkerAt(fs.Now(), fs.c.root) == Some(marker)
      invariant forall path | path in entries :: MayRemove(fs.c, fs.Now(), marker, path)
      decreases |entries|
    {
      var path :| path in entries;
      ghost var before := fs.Now();
      CleanupAllowed(fs.c, fs.Now(), marker, path);
      fs.Remove(path, if Settled(path) then Cleanup(path) else Scratch);
      forall other | other in entries - {path} ensures MayRemove(fs.c, fs.Now(), marker, other) {
        StillUnreferenced(fs.c, before, fs.Now(), marker, path, other);
      }
      assert all - (entries - {path}) == all - entries + {path};
      entries := entries - {path};
      removed := removed + 1;
    }
    assert all - entries == all;
  }

  lemma InDirectory(files: Files, directory: Directory, keep: set<Name>, digestsOnly: bool)
    ensures forall path | path in Candidates(files, directory, keep, digestsOnly) :: path.directory == directory
  {
  }

  function ManifestGarbage(c: Context, files: Files, marker: ReadyMarker): set<Path> {
    set path | path in files && path.directory == Manifests(c.root)
      && !(path.name.Word? && MarksManifest(marker, c.pin.inputs, path.name.text))
  }

  function BundleGarbage(c: Context, files: Files, marker: ReadyMarker): set<Path> {
    set path | path in files && path.directory.Installed? && path.directory.base == c.root && path.name.Hex?
      && files[path].Folder? && !MarksBundle(marker, path.directory.provider, path.name.digest)
  }

  function ChunkGarbage(c: Context, files: Files, marker: ReadyMarker): set<Path> {
    set path | path in files && path.directory == Base(c.cache) && path.name.Hex?
      && files[path].Folder? && !MarksChunk(marker, path.name.digest)
  }

  /** What cleanup leaves nothing of: every bundle and manifest, and in production every chunk, not in the marker. */
  function Garbage(c: Context, files: Files, marker: ReadyMarker): set<Path> {
    ManifestGarbage(c, files, marker) + BundleGarbage(c, files, marker)
    + if c.production then ChunkGarbage(c, files, marker) else {}
  }

  /** No staging data and no pending manifest. */
  predicate Swept(files: Files, c: Context) {
    forall path | path in files ::
      && path.directory != Staging(c.root) && path.directory != Staging(c.cache)
      && (path.directory == Manifests(c.root) ==> !path.name.Pending?)
  }

  method KeptManifests(inputs: Inputs, marker: ReadyMarker) returns (keep: set<Name>)
    requires |marker.providers| <= |inputs.providers|
    ensures forall name :: name in keep <==> name.Word? && MarksManifest(marker, inputs, name.text)
  {
    keep := {};
    var i := 0;
    while i < |marker.providers|
      invariant i <= |marker.providers|
      invariant forall name :: name in keep <==>
        name.Word? && exists k :: 0 <= k < i && inputs.providers[k].chunkManifest.asset == Named(name.text)
    {
      if inputs.providers[i].chunkManifest.asset.Named? {
        keep := keep + {Word(inputs.providers[i].chunkManifest.asset.text)};
      }
      i := i + 1;
    }
  }

  method KeptBundles(marker: ReadyMarker, provider: string) returns (keep: set<Name>)
    ensures forall name :: name in keep <==> name.Hex? && MarksBundle(marker, provider, name.digest)
  {
    keep := {};
    var i := 0;
    while i < |marker.providers|
      invariant i <= |marker.providers|
      invariant forall name :: name in keep <==>
        (name.Hex? && exists k :: (0 <= k < i && marker.providers[k].providerId == provider
                                   && marker.providers[k].bundleSha256 == name.digest))
    {
      if marker.providers[i].providerId == provider {
        keep := keep + {Hex(marker.providers[i].bundleSha256)};
      }
      i := i + 1;
    }
  }

  method KeptChunks(marker: ReadyMarker) returns (keep: set<Name>)
    ensures forall name :: name in keep <==> name.Hex? && MarksChunk(marker, name.digest)
  {
    keep := {};
    var i := 0;
    while i < |marker.providers|
      invariant i <= |marker.providers|
      invariant forall name :: name in keep <==>
        name.Hex? && exists k :: 0 <= k < i && name.digest in marker.providers[k].chunks
    {
      keep := keep + set id | id in marker.providers[i].chunks :: Hex(id);
      i := i + 1;
    }
  }

  method CleanManifests(fs: FileSystem, marker: ReadyMarker)
    requires fs.Valid() && MarkerAt(fs.Now(), fs.c.root) == Some(marker)
    requires |marker.providers| <= |fs.c.pin.inputs.providers|
    modifies fs`files, fs`trace, fs`log
    ensures fs.Valid() && fs.Continues() && OnlyCleans(fs.log, |old(fs.log)|)
    ensures fs.Now() == old(fs.Now()) - ManifestGarbage(fs.c, old(fs.Now()), marker)
    ensures MarkerAt(fs.Now(), fs.c.root) == Some(marker)
    ensures forall path | path in fs.files :: path in old(fs.files)
    ensures forall path | path in fs.files && path.directory == Manifests(fs.c.root) :: Settled(path)
  {
    hide Allowed, Effect, Follows, PinValid, InodesSound, MarksManifest;
    var keep := KeptManifests(fs.c.pin.inputs, marker);
    var removed := RemoveUnreferenced(fs, Manifests(fs.c.root), keep, false, marker);
    assert Candidates(old(fs.files), Manifests(fs.c.root), keep, false) * old(fs.Now()).Keys
        == ManifestGarbage(fs.c, old(fs.Now()), marker);
  }

  function ProvidersInstalled(files: Files, root: string): set<string> {
    set path | path in files && path.directory.Installed? && path.directory.base == root :: path.directory.provider
  }

  function GarbageOf(c: Context, files: Files, marker: ReadyMarker, providers: set<string>): set<Path> {
    set path | path in BundleGarbage(c, files, marker) && path.directory.provider in providers
  }

  method CleanProvider(fs: FileSystem, marker: ReadyMarker, provider: string) returns (removed: nat)
    requires fs.Valid() && MarkerAt(fs.Now(), fs.c.root) == Some(marker)
    modifies fs`files, fs`trace, fs`log
    ensures fs.Valid() && fs.Continues() && OnlyCleans(fs.log, |old(fs.log)|)
    ensures fs.Now() == old(fs.Now()) - GarbageOf(fs.c, old(fs.Now()), marker, {provider})
    ensures removed == |GarbageOf(fs.c, old(fs.Now()), marker, {provider})|
    ensures MarkerAt(fs.Now(), fs.c.root) == Some(marker)
    ensures forall path | path in fs.files :: path in old(fs.files)
  {
    hide Allowed, Effect, Follows, PinValid, InodesSound, MarksBundle;
    var keep := KeptBundles(marker, provider);
    removed := RemoveUnreferenced(fs, Installed(fs.c.root, provider), keep, true, marker);
    assert Candidates(old(fs.files), Installed(fs.c.root, provider), keep, true)
        == GarbageOf(fs.c, old(fs.Now()), marker, {provider});
  }

  method CleanBundles(fs: FileSystem, marker: ReadyMarker) returns (removed: nat)
    requires fs.Valid() && MarkerAt(fs.Now(), fs.c.root) == Some(marker)
    modifies fs`files, fs`trace, fs`log
    ensures fs.Valid() && fs.Continues() && OnlyCleans(fs.log, |old(fs.log)|)
    ensures fs.Now() == old(fs.Now()) - BundleGarbage(fs.c, old(fs.Now()), marker)
    ensures removed == |BundleGarbage(fs.c, old(fs.Now()), marker)|
    ensures MarkerAt(fs.Now(), fs.c.root) == Some(marker)
    ensures forall path | path in fs.files :: path in old(fs.files)
  {
    hide Allowed, Effect, Follows, PinValid, InodesSound, BundleGarbage;
    removed := 0;
    var providers := ProvidersInstalled(fs.files, fs.c.root);
    ghost var all := providers;
    assert GarbageOf(fs.c, fs.Now(), marker, {}) == {};
    while providers != {}
      invariant providers <= all && fs.Valid() && fs.Continues() && OnlyCleans(fs.log, |old(fs.log)|)
      invariant fs.Now() == old(fs.Now()) - GarbageOf(fs.c, old(fs.Now()), marker, all - providers)
      invariant removed == |GarbageOf(fs.c, old(fs.Now()), marker, all - providers)|
      invariant MarkerAt(fs.Now(), fs.c.root) == Some(marker)
      invariant forall path | path in fs.files :: path in old(fs.files)
      decreases |providers|
    {
      var provider :| provider in providers;
      var count := CleanProvider(fs, marker, provider);
      GarbageStep(fs.c, old(fs.Now()), marker, all - providers, provider);
      assert all - (providers - {provider}) == all - providers + {provider};
      removed := removed + count;
      providers := providers - {provider};
    }
    assert all - providers == all;
    AllGarbage(fs.c, old(fs.files), marker);
  }

  lemma GarbageStep(c: Context, files: Files, marker: ReadyMarker, done: set<string>, provider: string)
    requires provider !in done
    ensures var rest := files - GarbageOf(c, files, marker, done);
            && rest - GarbageOf(c, rest, marker, {provider}) == files - GarbageOf(c, files, marker, done + {provider})
            && |GarbageOf(c, files, marker, done + {provider})|
               == |GarbageOf(c, files, marker, done)| + |GarbageOf(c, rest, marker, {provider})|
  {
    hide MarksBundle;
    var rest := files - GarbageOf(c, files, marker, done);
    assert GarbageOf(c, files, marker, done + {provider})
        == GarbageOf(c, files, marker, done) + GarbageOf(c, rest, marker, {provider});
  }

  lemma AllGarbage(c: Context, files: Files, marker: ReadyMarker)
    ensures GarbageOf(c, View(files), marker, ProvidersInstalled(files, c.root)) == BundleGarbage(c, View(files), marker)
  {
    hide MarksBundle;
    forall path | path in BundleGarbage(c, View(files), marker)
      ensures path.directory.provider in ProvidersInstalled(files, c.root)
    {
      assert path in files;
    }
  }

  method CleanChunks(fs: FileSystem, marker: ReadyMarker) returns (removed: nat)
    requires fs.Valid() && MarkerAt(fs.Now(), fs.c.root) == Some(marker) && fs.c.production
    modifies fs`files, fs`trace, fs`log
    ensures fs.Valid() && fs.Continues() && OnlyCleans(fs.log, |old(fs.log)|)
    ensures fs.Now() == old(fs.Now()) - ChunkGarbage(fs.c, old(fs.Now()), marker)
    ensures removed == |ChunkGarbage(fs.c, old(fs.Now()), marker)|
    ensures MarkerAt(fs.Now(), fs.c.root) == Some(marker)
    ensures forall path | path in fs.files :: path in old(fs.files)
  {
    hide Allowed, Effect, Follows, PinValid, InodesSound, MarksChunk;
    BaseDiffers(fs);
    var keep := KeptChunks(marker);
    removed := RemoveUnreferenced(fs, Base(fs.c.cache), keep, true, marker);
    assert Candidates(old(fs.files), Base(fs.c.cache), keep, true) == ChunkGarbage(fs.c, old(fs.Now()), marker);
  }

  lemma BaseDiffers(fs: FileSystem)
    requires fs.Valid()
    ensures fs.c.cache != fs.c.root
  {
  }

  /**
   Removes staging data and exactly what the marker does not reference; a marker
   with more Providers than the pin makes the source index out of range.
  */
  method Clean(fs: FileSystem, marker: ReadyMarker) returns (err: Option<Error>, chunks: nat, bundles: nat)
    requires fs.Valid() && MarkerAt(fs.Now(), fs.c.root) == Some(marker)
    modifies fs`files, fs`trace, fs`log
    ensures fs.Valid() && fs.Continues() && OnlyCleans(fs.log, |old(fs.log)|)
    ensures err == if |marker.providers| > |fs.c.pin.inputs.providers| then Some(Panicked) else None
    ensures err.None? ==>
      && fs.Now() == old(fs.Now()) - Garbage(fs.c, old(fs.Now()), marker)
      && chunks == (if fs.c.production then |ChunkGarbage(fs.c, old(fs.Now()), marker)| else 0)
      && bundles == |BundleGarbage(fs.c, old(fs.Now()), marker)|
      && Swept(fs.files, fs.c)
    ensures err.Some? ==> fs.Now() == old(fs.Now())
  {
    hide Allowed, Effect, Follows, PinValid, InodesSound, ManifestGarbage, BundleGarbage, ChunkGarbage;
    chunks, bundles := 0, 0;
    if |marker.providers| > |fs.c.pin.inputs.providers| {
      return Some(Panicked), 0, 0;
    }
    fs.RemoveStaging(fs.c.root);
    fs.RemoveStaging(fs.c.cache);
    ghost var start := fs.Now();
    CleanManifests(fs, marker);
    GarbageApart(fs.c, start, marker);
    bundles := CleanBundles(fs, marker);
    if fs.c.production {
      chunks := CleanChunks(fs, marker);
    }
    err := None;
  }

  lemma GarbageApart(c: Context, files: Files, marker: ReadyMarker)
    ensures var rest := files - ManifestGarbage(c, files, marker);
            && BundleGarbage(c, rest, marker) == BundleGarbage(c, files, marker)
            && ChunkGarbage(c, rest - BundleGarbage(c, rest, marker), marker) == ChunkGarbage(c, files, marker)
  {
    hide MarksBundle, MarksChunk, MarksManifest;
  }

  /**
   Cleanup spares what the marker names and everything else that is neither a
   manifest nor named by a digest; of digest-named directories it leaves only the
   marker's bundles and, in production, only the marker's chunks.
  */
  lemma CleanupExactly(c: Context, files: Files, marker: ReadyMarker, path: Path)
    requires path in files && c.root != c.cache
    ensures var rest := files - Garbage(c, files, marker);
      && (path.directory == Base(c.cache) && path.name.Hex? && files[path].Folder? ==>
            (path in rest <==> !c.production || MarksChunk(marker, path.name.digest)))
      && (path.directory.Installed? && path.directory.base == c.root && path.name.Hex? && files[path].Folder? ==>
            (path in rest <==> MarksBundle(marker, path.directory.provider, path.name.digest)))
      && (path.directory == Manifests(c.root) && path.name.Word? ==>
            (path in rest <==> MarksManifest(marker, c.pin.inputs, path.name.text)))
      && (path.directory != Manifests(c.root) && !path.name.Hex? ==> path in rest)
      && (path.directory.Installed? && path.directory.base != c.root ==> path in rest)
      && (path in rest ==> rest[path] == files[path])
  {
    hide MarksBundle, MarksChunk, MarksManifest;
    assert path.directory != Manifests(c.root) || path !in BundleGarbage(c, files, marker) + ChunkGarbage(c, files, marker);
  }
}
