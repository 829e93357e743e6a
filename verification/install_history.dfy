/**
 Whole histories of a Provider root: any number of synchronizations, each cut off
 after any step and followed by the next.
*/
module InstallHistory {
  import opened ProviderInputs
  import opened Bundles
  import opened Moves
  import opened InstallInvariants
  import opened InstallTraces
  import opened SyncFiles
  import opened ChunkInstall
  import opened BundleInstall
  import opened InstallCheck
  import opened InstallCleanup
  import opened Synchronizer
  import opened Syncers
  import opened Sorting

  /** A step and the run it belongs to; where the run changes, the one before was cut off or ended. */
  datatype Step = Step(c: Context, move: Move)

  ghost predicate History(states: seq<Files>, steps: seq<Step>) {
    && |states| == |steps| + 1
    && forall i | 0 <= i < |steps| :: Taken(steps[i].c, states[i], steps[i].move, states[i + 1])
  }

  function StepsOf(c: Context, log: seq<Move>): (steps: seq<Step>)
    ensures |steps| == |log| && forall i | 0 <= i < |log| :: steps[i] == Step(c, log[i])
  {
    seq(|log|, i requires 0 <= i < |log| => Step(c, log[i]))
  }

  /** Any part of a run can follow any history that ends where the run begins. */
  lemma RunContinues(states: seq<Files>, steps: seq<Step>, c: Context, trace: seq<Files>, log: seq<Move>, k: nat)
    requires History(states, steps) && Follows(c, trace, log) && trace[0] == states[|steps|] && k <= |log|
    ensures History(states + trace[1..k + 1], steps + StepsOf(c, log[..k]))
  {
    hide Taken;
    var all, more := states + trace[1..k + 1], steps + StepsOf(c, log[..k]);
    forall i | 0 <= i < |more| ensures Taken(more[i].c, all[i], more[i].move, all[i + 1]) {
      if i < |steps| {
        assert Taken(steps[i].c, states[i], steps[i].move, states[i + 1]);
      } else {
        var j := i - |steps|;
        assert Taken(c, trace[j], log[j], trace[j + 1]);
        assert all[i] == trace[j] && all[i + 1] == trace[j + 1];
      }
    }
  }

  /** Every run pins the same, in any mode. */
  ghost predicate ForPin(steps: seq<Step>, c: Context) {
    forall i | 0 <= i < |steps| :: SamePin(steps[i].c, c)
  }

  predicate SamePin(a: Context, b: Context) {
    a.root == b.root && a.cache == b.cache && a.pin == b.pin
  }

  lemma SamePinSame(a: Context, b: Context, files: Files)
    requires SamePin(a, b)
    ensures OnePin(files, a) <==> OnePin(files, b)
  {
    hide CacheSound, BundleSound, ActiveFor, MarkerFor, ManifestStored, ChunksPresent;
    forall record ensures RecordInstalled(files, a, record) <==> RecordInstalled(files, b, record) {
    }
    assert MarkerOurs(files, a) <==> MarkerOurs(files, b);
    assert BundlesSound(files, a) <==> BundlesSound(files, b);
  }

  lemma EmptyRoot(files: Files, c: Context)
    requires forall path | path in files :: path.directory == Base(c.cache) && !path.name.Hex?
    requires c.root != c.cache
    ensures OnePin(files, c)
  {
  }

  /** From an empty root, every state of every history of one pin satisfies the invariant. */
  lemma {:induction false} EveryStateOfOnePin(states: seq<Files>, steps: seq<Step>, c: Context, i: nat)
    requires PinValid(c.pin) && History(states, steps) && ForPin(steps, c)
    requires OnePin(states[0], c) && i < |states|
    ensures OnePin(states[i], c)
  {
    hide PinValid, OnePin, Allowed, Effect;
    if i > 0 {
      EveryStateOfOnePin(states, steps, c, i - 1);
      var run := steps[i - 1].c;
      assert SamePin(run, c) && Taken(run, states[i - 1], steps[i - 1].move, states[i]);
      SamePinSame(run, c, states[i - 1]);
      OnePinKept(run, states[i - 1], steps[i - 1].move);
      SamePinSame(run, c, states[i]);
    }
  }

  // ---------------------------------------------------------------------
  // What a marker for the pin stands for.
  // ---------------------------------------------------------------------

  /** ready.json names the pin. */
  predicate Names(files: Files, c: Context) {
    MarkerAt(files, c.root).Some? && MarkerAt(files, c.root).value.inputsSha256 == c.pin.digest
  }

  ghost predicate ChunkInstalled(files: Files, cache: string, chunk: Chunk) {
    var path := ChunkPath(cache, chunk.chunkId);
    path in files && files[path].Folder? && Exact(files[path].tree, chunk.files)
  }

  /** Each file of the bundle comes from one chunk, as it is there, and every chunk file is in the bundle. */
  ghost predicate DisjointUnion(files: Files, c: Context, record: ProviderRecord, tree: Tree) {
    && (forall path | path in tree :: exists chunk :: FromChunk(files, c, record, chunk, path, tree))
    && (forall path, a, b | a in ChunksOf(record) && b in ChunksOf(record) && path in Paths(a.files)
          && path in Paths(b.files) :: a == b)
    && (forall chunk, path | chunk in ChunksOf(record) && path in Paths(chunk.files) ::
          FromChunk(files, c, record, chunk, path, tree))
  }

  ghost predicate FromChunk(
    files: Files, c: Context, record: ProviderRecord, chunk: Chunk, path: string, tree: Tree)
  {
    var cached := TreeAt(files, ChunkPath(c.cache, chunk.chunkId));
    && chunk in ChunksOf(record) && path in Paths(chunk.files) && path in cached && path in tree
    && cached[path].Regular? && tree[path].Regular? && tree[path].content == cached[path].content
  }

  ghost predicate BundleInstalled(files: Files, c: Context, record: ProviderRecord) {
    var path := BundlePath(c.root, record);
    path in files && files[path].Folder? && DisjointUnion(files, c, record, files[path].tree)
  }

  /** active.json lists the pinned Providers, each once, in order of their ids. */
  ghost predicate ActiveListsPin(files: Files, c: Context) {
    && ActiveReadable(files, c.root) && ActivePath(c.root) in files
    && multiset(ActiveEntries(files, c.root)) == multiset(EntriesOf(c.pin.inputs.providers))
    && Ascends(ByProviderId, ActiveEntries(files, c.root))
  }

  lemma {:induction false} OneChunkPerPath(chunks: seq<Chunk>, i: nat, j: nat, path: string)
    requires DistinctPaths(FilesOf(chunks)) && i < |chunks| && j < |chunks|
    requires path in Paths(chunks[i].files) && path in Paths(chunks[j].files)
    ensures i == j
  {
    if i < j {
      RejectedChunk(chunks, j);
      CarriedBefore(chunks, i, j, path);
    } else if j < i {
      RejectedChunk(chunks, i);
      CarriedBefore(chunks, j, i, path);
    }
  }

  lemma CarriedBefore(chunks: seq<Chunk>, i: nat, j: nat, path: string)
    requires i < j <= |chunks| && path in Paths(chunks[i].files)
    ensures path in Paths(FilesOf(chunks[..j]))
  {
    var file :| file in chunks[i].files && file.path == path;
    assert chunks[..j][i] == chunks[i];
    ListedInChunk(chunks[..j], file);
  }

  lemma UnionOfChunks(files: Files, c: Context, record: ProviderRecord, tree: Tree)
    requires Pinned(record) && Exact(tree, BundleFiles(record))
    requires forall chunk | chunk in ChunksOf(record) :: ChunkInstalled(files, c.cache, chunk)
    ensures DisjointUnion(files, c, record, tree)
  {
    hide Pinned, Exact, ChunkInstalled, FilesOf, FromChunk;
    PinnedFiles(record);
    ExactKeys(tree, BundleFiles(record));
    var chunks := ChunksOf(record);
    forall path, a, b | a in chunks && b in chunks && path in Paths(a.files) && path in Paths(b.files) ensures a == b {
      var i :| 0 <= i < |chunks| && chunks[i] == a;
      var j :| 0 <= j < |chunks| && chunks[j] == b;
      OneChunkPerPath(chunks, i, j, path);
    }
    forall chunk, path | chunk in chunks && path in Paths(chunk.files)
      ensures FromChunk(files, c, record, chunk, path, tree)
    {
      SameBytes(files, c, record, chunk, path, tree);
    }
    CarriedPathsListed(chunks);
    forall path | path in tree ensures exists chunk :: FromChunk(files, c, record, chunk, path, tree) {
      var chunk, file :| chunk in chunks && file in chunk.files && file.path == path;
      assert FromChunk(files, c, record, chunk, path, tree);
    }
  }

  lemma SameBytes(files: Files, c: Context, record: ProviderRecord, chunk: Chunk, path: string, tree: Tree)
    requires Exact(tree, BundleFiles(record)) && chunk in ChunksOf(record) && path in Paths(chunk.files)
    requires ChunkInstalled(files, c.cache, chunk)
    ensures FromChunk(files, c, record, chunk, path, tree)
  {
    var i :| 0 <= i < |chunk.files| && chunk.files[i].path == path;
    ListedInChunk(ChunksOf(record), chunk.files[i]);
    var k :| 0 <= k < |BundleFiles(record)| && BundleFiles(record)[k] == chunk.files[i];
    assert Holds(tree, BundleFiles(record)[k]);
    assert Holds(TreeAt(files, ChunkPath(c.cache, chunk.chunkId)), chunk.files[i]);
  }

  lemma MarkedChunk(files: Files, c: Context, record: ProviderRecord, chunk: Chunk)
    requires OnePin(files, c) && ReadyPath(c.root) in files && record in c.pin.inputs.providers
    requires chunk in ChunksOf(record)
    ensures ChunkInstalled(files, c.cache, chunk)
  {
    assert RecordInstalled(files, c, record);
    PinnedChunk(record, chunk);
    assert ChunkSound(files[ChunkPath(c.cache, chunk.chunkId)], chunk.chunkId);
  }

  /**
   If ready.json names the pin, the stored manifests have the pinned digests,
   every listed chunk directory holds exactly its listed bytes, every bundle is
   the disjoint union of its chunks and active.json lists exactly the pinned
   Providers.
  */
  lemma ReadyMeansInstalled(files: Files, c: Context)
    requires PinValid(c.pin) && OnePin(files, c) && Names(files, c)
    ensures forall record | record in c.pin.inputs.providers ::
      && ManifestStored(files, c.root, record) && BundleInstalled(files, c, record)
      && forall chunk | chunk in ChunksOf(record) :: ChunkInstalled(files, c.cache, chunk)
    ensures ActiveListsPin(files, c)
  {
    hide PinValid, Pinned, Exact, CacheSound, ChunkInstalled, EntryOf, DisjointUnion, OnePin, ManifestStored,
      ByProviderId;
    var records := c.pin.inputs.providers;
    SortContents(ByProviderId, EntriesOf(records));
    EntriesAscend(c.pin);
    MarkerParts(files, c);
    forall record | record in records
      ensures && ManifestStored(files, c.root, record) && BundleInstalled(files, c, record)
              && forall chunk | chunk in ChunksOf(record) :: ChunkInstalled(files, c.cache, chunk)
    {
      MarkedRecord(files, c, record);
    }
  }

  lemma MarkerParts(files: Files, c: Context)
    requires OnePin(files, c) && ReadyPath(c.root) in files
    ensures Stored(files, ActivePath(c.root), ActiveFor(c.pin))
  {
  }

  lemma MarkedRecord(files: Files, c: Context, record: ProviderRecord)
    requires OnePin(files, c) && ReadyPath(c.root) in files && record in c.pin.inputs.providers
    ensures ManifestStored(files, c.root, record) && BundleInstalled(files, c, record)
    ensures forall chunk | chunk in ChunksOf(record) :: ChunkInstalled(files, c.cache, chunk)
  {
    hide Exact, CacheSound, ChunkInstalled, DisjointUnion;
    assert RecordInstalled(files, c, record) && BundleSound(files, c.root, record);
    forall chunk | chunk in ChunksOf(record) ensures ChunkInstalled(files, c.cache, chunk) {
      MarkedChunk(files, c, record, chunk);
    }
    UnionOfChunks(files, c, record, files[BundlePath(c.root, record)].tree);
  }

  /** The two together: over any history of one pin from an empty root. */
  lemma InterruptedRunsStayHonest(states: seq<Files>, steps: seq<Step>, c: Context, i: nat)
    requires PinValid(c.pin) && c.root != c.cache && History(states, steps) && ForPin(steps, c)
    requires states[0] == map[] && i < |states| && Names(states[i], c)
    ensures forall record | record in c.pin.inputs.providers ::
      && ManifestStored(states[i], c.root, record) && BundleInstalled(states[i], c, record)
      && forall chunk | chunk in ChunksOf(record) :: ChunkInstalled(states[i], c.cache, chunk)
    ensures ActiveListsPin(states[i], c)
  {
    hide PinValid, OnePin, History, ForPin, Names, BundleInstalled, ChunkInstalled, ActiveListsPin;
    HistoryLength(states, steps);
    EmptyRoot(states[0], c);
    EveryStateOfOnePin(states, steps, c, i);
    ReadyMeansInstalled(states[i], c);
  }

  lemma HistoryLength(states: seq<Files>, steps: seq<Step>)
    requires History(states, steps)
    ensures |states| == |steps| + 1
  {
  }

  // ---------------------------------------------------------------------
  // Recovery, then nothing left to do.
  // ---------------------------------------------------------------------

  /** Where the marker references everything, a cleanup removes nothing, at any of its steps. */
  lemma NothingToClean(c: Context, a: Files, move: Move)
    requires Allowed(c, a, move) && (move.Scratch? || move.Cleanup?)
    requires MarkerAt(a, c.root).Some? && Garbage(c, a, MarkerAt(a, c.root).value) == {}
    requires forall path | path in a :: Settled(path)
    ensures Effect(c, a, move) == a
  {
    hide Unreferenced, Garbage, MarkerAt;
    UnreferencedIsGarbage(c, a, MarkerAt(a, c.root).value);
  }

  lemma UnreferencedIsGarbage(c: Context, a: Files, marker: ReadyMarker)
    requires forall path | path in a :: Settled(path)
    ensures forall path | path in a && Unreferenced(c, a, marker, path) :: path in Garbage(c, a, marker)
  {
    hide MarksBundle, MarksChunk, MarksManifest;
  }

  lemma {:induction false} UnchangedTrace(c: Context, trace: seq<Files>, log: seq<Move>, from: nat, to: nat)
    requires Follows(c, trace, log) && from <= to < |trace| && OnlyCleans(log, from)
    requires MarkerAt(trace[from], c.root).Some?
    requires Garbage(c, trace[from], MarkerAt(trace[from], c.root).value) == {}
    requires forall path | path in trace[from] :: Settled(path)
    ensures trace[to] == trace[from]
  {
    hide Follows, Allowed, Effect, MarkerAt, Garbage, Settled;
    if from < to {
      UnchangedTrace(c, trace, log, from, to - 1);
      FollowsLength(c, trace, log);
      FollowsAt(c, trace, log, to - 1);
      NothingToClean(c, trace[to - 1], log[to - 1]);
    }
  }

  /** Every state since the given one is the same. */
  ghost predicate Unchanged(trace: seq<Files>, from: nat, files: Files) {
    forall k | from <= k < |trace| :: trace[k] == files
  }

  lemma SettledUnchanged(fs: FileSystem, from: nat, start: Files, files: Files)
    requires fs.Valid() && from < |fs.trace| && fs.trace[from] == start == View(files) && Settles(files, fs.c)
    requires OnlyCleans(fs.log, from)
    ensures Unchanged(fs.trace, from, start) && fs.Now() == start
  {
    hide Follows, PinValid, Garbage, MarkerAt, OnlyCleans, Swept;
    forall k | from <= k < |fs.trace| ensures fs.trace[k] == start {
      UnchangedTrace(fs.c, fs.trace, fs.log, from, k);
    }
    LastView(fs);
  }

  /**
   In a state that interrupted runs of the pin leave, marked and settled, a
   synchronization with any options at all fetches, links, repairs and changes
   nothing: every state from its first to its last is the one it began in.
  */
  method SynchronizeAgain(fs: FileSystem, options: Options) returns (again: Syncer)
    requires fs.Valid() && OnePin(fs.Now(), fs.c) && ReadyPath(fs.c.root) in fs.Now() && Settles(fs.files, fs.c)
    modifies fs
    ensures fs.Valid() && fs.Continues() && Settles(fs.files, fs.c) && Completed(fs.Now(), fs.c)
    ensures fs.Now() == old(fs.Now()) && Unchanged(fs.trace, |old(fs.log)|, old(fs.Now()))
    ensures again.reused && again.downloadedChunks == 0 && again.downloadedBytes == 0
    ensures again.seededChunks == 0 && again.repairedChunks == 0
    ensures again.began == |old(fs.log)| && again.ended == |fs.log|
  {
    hide Follows, Allowed, Effect, PinValid, InodesSound, OnePin, Completed, Garbage, MarkerAt, Swept, DamageOf,
      ReadyHolds, AllObtainable, RoomFor, Repairable, AllHeld, OnlyCleans;
    ghost var from, start, files := |fs.log|, fs.Now(), fs.files;
    LastView(fs);
    again := new Syncer(options, fs);
    var err := again.Run();
    SettledUnchanged(fs, from, start, files);
  }

  /**
   From any state interrupted runs of the pin leave, one synchronization with a
   good source and room completes; the next one, with any options, reuses what is
   there, and no state from the end of the first to the end of the second differs.
  */
  method RecoverThenReuse(fs: FileSystem, first: Options, second: Options) returns (recovery: Syncer, again: Syncer)
    requires fs.Valid() && CanInstall(fs.Now(), fs.c, first)
    modifies fs
    ensures fs.Valid() && fs.Continues() && Settles(fs.files, fs.c)
    ensures |old(fs.log)| == recovery.began <= recovery.ended == again.began <= again.ended == |fs.log|
    ensures recovery.ended < |fs.trace| && Completed(fs.trace[recovery.ended], fs.c)
    ensures fs.Now() == fs.trace[recovery.ended] && Unchanged(fs.trace, recovery.ended, fs.Now())
    ensures again.reused && again.downloadedChunks == 0 && again.downloadedBytes == 0
    ensures again.seededChunks == 0 && again.repairedChunks == 0
  {
    hide Follows, Allowed, Effect, PinValid, InodesSound, OnePin, Completed, Garbage, MarkerAt, Swept, DamageOf,
      ReadyHolds, AllObtainable, RoomFor, Repairable, AllHeld, OnlyCleans, Settles;
    ghost var start := |fs.log|;
    LastView(fs);
    recovery := new Syncer(first, fs);
    var err := recovery.Run();
    LastView(fs);
    RecoveredMarked(fs, start);
    ghost var recovered := fs.Now();
    again := SynchronizeAgain(fs, second);
    assert fs.trace[recovery.ended] == recovered;
  }

  lemma RecoveredMarked(fs: FileSystem, start: nat)
    requires fs.Valid() && start < |fs.trace| && OnePin(fs.trace[start], fs.c) && Completed(fs.Now(), fs.c)
    ensures OnePin(fs.Now(), fs.c) && ReadyPath(fs.c.root) in fs.Now()
  {
    hide PinValid, OnePin;
    OnePinTrace(fs.c, fs.trace, fs.log, start, |fs.log|);
  }
}
