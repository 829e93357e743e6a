/**
 With two pins a run can reuse an installation whose active.json another pin
 wrote: exactly when it does, and histories that get there.
*/
module StaleActives {
  import opened Semver
  import opened Versions
  import opened VersionLaws
  import opened Wrappers
  import opened Sorting
  import opened ProviderInputs
  import opened Bundles
  import opened Moves
  import opened InstallInvariants
  import opened InstallTraces
  import opened SyncFiles
  import opened ChunkInstall
  import opened InstallCheck
  import opened InstallCleanup
  import opened BundleInstall
  import opened Synchronizer
  import opened Syncers
  import opened InstallHistory
  import opened ExamplePins

  // ---------------------------------------------------------------------
  // When two pins write the same active.json.
  // ---------------------------------------------------------------------

  /** All that a pin says of a Provider but where its chunk manifest is. */
  predicate SameListing(a: ProviderRecord, b: ProviderRecord) {
    && a.providerId == b.providerId && a.providerVersion == b.providerVersion && a.bundleSha256 == b.bundleSha256
    && a.fileCount == b.fileCount && a.manifestSha256 == b.manifestSha256 && a.moduleSha256 == b.moduleSha256
    && a.unpackedSizeBytes == b.unpackedSizeBytes
  }

  ghost predicate HasListing(record: ProviderRecord, records: seq<ProviderRecord>) {
    exists other :: other in records && SameListing(record, other)
  }

  /** The same Providers, in whatever order, and the same release or source tree. */
  ghost predicate ListsSame(a: Inputs, b: Inputs) {
    && a.release == b.release && (a.release.None? ==> a.sourceTreeSha256 == b.sourceTreeSha256)
    && (forall record | record in a.providers :: HasListing(record, b.providers))
    && (forall record | record in b.providers :: HasListing(record, a.providers))
  }

  lemma EntriesEqual(a: ProviderRecord, b: ProviderRecord)
    ensures EntryOf(a) == EntryOf(b) <==> SameListing(a, b)
  {
  }

  lemma EntriesWithin(a: seq<ProviderRecord>, b: seq<ProviderRecord>)
    ensures (forall entry | entry in EntriesOf(a) :: entry in EntriesOf(b))
       <==> forall record | record in a :: HasListing(record, b)
  {
    hide EntryOf, SameListing;
    if forall entry | entry in EntriesOf(a) :: entry in EntriesOf(b) {
      forall record | record in a ensures HasListing(record, b) {
        var i :| 0 <= i < |a| && a[i] == record;
        assert EntriesOf(a)[i] in EntriesOf(b);
        var j :| 0 <= j < |b| && EntriesOf(b)[j] == EntriesOf(a)[i];
        EntriesEqual(record, b[j]);
      }
    }
    if forall record | record in a :: HasListing(record, b) {
      forall entry | entry in EntriesOf(a) ensures entry in EntriesOf(b) {
        var i :| 0 <= i < |a| && EntriesOf(a)[i] == entry;
        assert HasListing(a[i], b);
        var other :| other in b && SameListing(a[i], other);
        var j :| 0 <= j < |b| && b[j] == other;
        EntriesEqual(a[i], b[j]);
        assert EntriesOf(b)[j] == entry;
      }
    }
  }

  /** Two pins write one active.json exactly when they list the same. */
  lemma SameActiveExactly(p: Pin, q: Pin)
    requires PinValid(p) && PinValid(q)
    ensures ActiveFor(p) == ActiveFor(q) <==> ListsSame(p.inputs, q.inputs)
  {
    hide PinValid, ByProviderId, HasListing, EntriesOf;
    ByProviderIdLaws();
    EntriesDiffer(p);
    EntriesDiffer(q);
    var a, b := p.inputs.providers, q.inputs.providers;
    EntriesWithin(a, b);
    EntriesWithin(b, a);
    SortForgetsOrder(ByProviderId, EntriesOf(a), EntriesOf(b));
  }

  // ---------------------------------------------------------------------
  // When the upgrade rules let one pin follow another.
  // ---------------------------------------------------------------------

  /** Of one Provider: no older version, and at the same precedence the same bundle. */
  predicate RecordFollows(later: ProviderRecord, earlier: ProviderRecord) {
    later.providerId == earlier.providerId ==>
      && CompareVersions(later.providerVersion, earlier.providerVersion) >= 0
      && (CompareVersions(later.providerVersion, earlier.providerVersion) == 0 ==>
            later.bundleSha256 == earlier.bundleSha256)
  }

  ghost predicate MayFollow(later: Inputs, earlier: Inputs) {
    forall a, b | a in later.providers && b in earlier.providers :: RecordFollows(a, b)
  }

  /** checkVersions of one pin on what the other wrote. */
  lemma VersionsAfter(c: Context, other: Context, files: Files)
    requires other.root == c.root && Stored(files, ActivePath(c.root), ActiveFor(other.pin))
    ensures ActiveReadable(files, c.root)
    ensures VersionsAllow(files, c.root, c.pin.inputs) <==> MayFollow(c.pin.inputs, other.pin.inputs)
  {
    hide CompareVersions, EntryOf, SortEntries;
    var records, entries := other.pin.inputs.providers, EntriesOf(other.pin.inputs.providers);
    assert ActiveEntries(files, c.root) == SortEntries(entries);
    if VersionsAllow(files, c.root, c.pin.inputs) {
      forall a, b | a in c.pin.inputs.providers && b in records ensures RecordFollows(a, b) {
        var k :| 0 <= k < |records| && records[k] == b;
        SortedMember(entries, entries[k]);
        assert UpgradeAllowed(a, entries[k]);
      }
    }
    if MayFollow(c.pin.inputs, other.pin.inputs) {
      forall a, installed | a in c.pin.inputs.providers && installed in SortEntries(entries)
        ensures UpgradeAllowed(a, installed)
      {
        SortedMember(entries, installed);
        var k :| 0 <= k < |entries| && entries[k] == installed;
        assert RecordFollows(a, records[k]);
      }
    }
  }

  // ---------------------------------------------------------------------
  // A run cut off between its two writes, and the first pin's next run.
  // ---------------------------------------------------------------------

  /**
   Root complete for one pin; a run for another is cut off between its two
   writes. The first pin's next run reuses what it finds exactly if it is not in
   production or may follow the other pin; and what it then vouches for is wrong
   exactly if the two pins do not list the same.
  */
  lemma StaleActive(c: Context, other: Context, files: Files, full: bool)
    requires PinValid(c.pin) && PinValid(other.pin) && other.root == c.root
    requires Completed(files, c) && Genuine(files, c) && ReadyHolds(files, c)
    requires Allowed(other, files, WriteActive) && DamageOf(files, c, full) == Damage({}, {})
    ensures var next := Effect(other, files, WriteActive);
            && Genuine(next, c)
            && (Reuses(next, c, full) <==> (c.production ==> MayFollow(c.pin.inputs, other.pin.inputs)))
            && (Stored(next, ActivePath(c.root), ActiveFor(c.pin)) <==> ListsSame(c.pin.inputs, other.pin.inputs))
  {
    hide Allowed, Completed, DamageOf, ActiveFor, Pinned, ListsSame, PinValid, MayFollow, VersionsAllow, MarkerFor;
    PathsDiffer();
    SameActiveExactly(c.pin, other.pin);
    var next := Effect(other, files, WriteActive);
    var records := c.pin.inputs.providers;
    forall i | 0 <= i < |records| ensures ManifestStored(next, c.root, records[i]) {
      assert ManifestStored(files, c.root, records[i]);
    }
    SameTreesSameDamage(files, next, c, full);
    VersionsAfter(c, other, next);
  }

  /**
   With both runs in production the other pin was no downgrade either, so the
   first may follow it exactly if no Provider they share changed precedence.
  */
  lemma FollowsBothWays(c: Context, other: Context, files: Files)
    requires PinValid(c.pin) && PinValid(other.pin) && other.root == c.root && other.production
    requires Completed(files, c) && Allowed(other, files, WriteActive)
    ensures MayFollow(c.pin.inputs, other.pin.inputs) <==>
            forall a, b | a in c.pin.inputs.providers && b in other.pin.inputs.providers :: SamePrecedence(a, b)
  {
    hide CompareVersions, RecordValid, Described;
    VersionsAfter(other, c, files);
    forall a, b | a in c.pin.inputs.providers && b in other.pin.inputs.providers && a.providerId == b.providerId
      ensures RecordFollows(b, a) && (RecordFollows(a, b) <==> SamePrecedence(a, b))
    {
      assert RecordValid(a) && RecordValid(b);
      VersionsFlip(a, b);
    }
  }

  predicate SamePrecedence(a: ProviderRecord, b: ProviderRecord) {
    a.providerId == b.providerId ==> CompareVersions(a.providerVersion, b.providerVersion) == 0
  }

  lemma VersionsFlip(a: ProviderRecord, b: ProviderRecord)
    requires RecordValid(a) && RecordValid(b)
    ensures CompareVersions(a.providerVersion, b.providerVersion) < 0
       <==> CompareVersions(b.providerVersion, a.providerVersion) > 0
    ensures CompareVersions(a.providerVersion, b.providerVersion) == 0
       <==> CompareVersions(b.providerVersion, a.providerVersion) == 0
  {
    CompareVersionsSymmetry(a.providerVersion, b.providerVersion);
  }

  /** A pin that drops Providers and changes none is always followed, and never lists the same. */
  lemma DroppingIsFollowed(later: Inputs, earlier: Inputs)
    requires InputsValid(later) && forall record | record in earlier.providers :: record in later.providers
    ensures MayFollow(later, earlier)
    ensures (exists record :: record in later.providers && record !in earlier.providers) ==> !ListsSame(later, earlier)
  {
    hide CompareVersions, RecordValid;
    forall a, b | a in later.providers && b in earlier.providers && a.providerId == b.providerId
      ensures a == b && RecordFollows(a, b)
    {
      var i :| 0 <= i < |later.providers| && later.providers[i] == a;
      var j :| 0 <= j < |later.providers| && later.providers[j] == b;
      assert i == j;
      VersionEqualsItself(a);
    }
    if record :| record in later.providers && record !in earlier.providers {
      assert !HasListing(record, earlier.providers);
    }
  }

  /**
   A run that reuses does not touch active.json: if it was stale it stays so, and
   the run reports success.
  */
  method LaterRun(fs: FileSystem, options: Options) returns (again: Syncer, err: Option<Error>)
    requires fs.Valid() && Genuine(fs.Now(), fs.c)
    modifies fs
    ensures fs.Valid() && (again.reused <==> Reuses(old(fs.Now()), fs.c, options.full))
    ensures again.reused ==>
      && err.None?
      && (forall content :: Stored(fs.Now(), ActivePath(fs.c.root), content)
                       <==> Stored(old(fs.Now()), ActivePath(fs.c.root), content))
    ensures fs.c.production && !VersionsAllow(old(fs.Now()), fs.c.root, fs.c.pin.inputs) ==>
      err.Some? && Refused(old(fs.Now()), fs.c, err.value) && fs.files == old(fs.files)
  {
    hide Follows, Allowed, Effect, PinValid, InodesSound, OnePin, Completed, Garbage, MarkerAt, Swept, DamageOf,
      ReadyHolds, AllObtainable, RoomFor, Repairable, AllHeld, OnlyCleans, Reuses, Refused, VersionsAllow, MarkerFor;
    again := new Syncer(options, fs);
    ghost var start := fs.Now();
    err := again.Run();
    ActiveSpared(fs.c, start);
  }

  lemma ActiveSpared(c: Context, files: Files)
    ensures MarkerAt(files, c.root).Some? ==>
      forall content :: Stored(files - Garbage(c, files, MarkerAt(files, c.root).value), ActivePath(c.root), content)
                   <==> Stored(files, ActivePath(c.root), content)
  {
    hide Garbage;
    if MarkerAt(files, c.root).Some? {
      GarbageSpares(c, files, MarkerAt(files, c.root).value);
    }
  }

  lemma SameTreesSameDamage(a: Files, b: Files, c: Context, full: bool)
    requires forall path: Path | path.name.Hex? :: TreeAt(a, path) == TreeAt(b, path)
    ensures DamageOf(a, c, full) == DamageOf(b, c, full)
  {
    hide IntegrityHeld, FileMatches;
    forall record, chunk | record in c.pin.inputs.providers && chunk in ChunksOf(record)
      ensures ChunkDamaged(a, c.cache, chunk, full) == ChunkDamaged(b, c.cache, chunk, full)
      ensures ChunkUnfit(a, c, record, chunk, full) == ChunkUnfit(b, c, record, chunk, full)
    {
      SameTreesSameChunk(a, b, c, record, chunk, full);
    }
    forall record | record in c.pin.inputs.providers
      ensures BundleDamaged(a, c, record, full) == BundleDamaged(b, c, record, full)
    {
      hide ChunkUnfit;
    }
  }

  lemma SameTreesSameChunk(a: Files, b: Files, c: Context, record: ProviderRecord, chunk: Chunk, full: bool)
    requires forall path: Path | path.name.Hex? :: TreeAt(a, path) == TreeAt(b, path)
    ensures ChunkDamaged(a, c.cache, chunk, full) == ChunkDamaged(b, c.cache, chunk, full)
    ensures ChunkUnfit(a, c, record, chunk, full) == ChunkUnfit(b, c, record, chunk, full)
  {
    hide FileMatches;
    forall file | file in chunk.files
      ensures CachedMatches(a, c.cache, chunk, file, full) == CachedMatches(b, c.cache, chunk, file, full)
      ensures FileDamaged(a, c, record, chunk, file, full) == FileDamaged(b, c, record, chunk, file, full)
    {
    }
  }

  // ---------------------------------------------------------------------
  // From nothing to such a state: pins of one Provider with one chunk.
  // ---------------------------------------------------------------------

  ghost predicate OneChunkPin(c: Context, record: ProviderRecord, chunk: Chunk, tree: Tree) {
    && PinValid(c.pin) && c.pin.inputs.providers == [record]
    && Pinned(record) && ChunksOf(record) == [chunk] && Exact(tree, chunk.files)
    && Describe(tree, record, Listed(record)).Done?
  }

  function Store(record: ProviderRecord, root: string): Move {
    StoreManifest(root, record, if record.chunkManifest.sha256.OfContent? then record.chunkManifest.sha256.content
                                else Encoded(Opaque))
  }

  /** The settled steps of a first run, in order. */
  function FirstRun(c: Context, record: ProviderRecord, chunk: Chunk, tree: Tree): (log: seq<Move>)
    ensures |log| == 5
  {
    [Store(record, c.root), PublishChunk(record, chunk, tree), PublishBundle(record, tree), WriteActive, WriteReady(0)]
  }

  /** The settled steps of a second, up to the first of its two writes. */
  function SecondRun(c: Context, record: ProviderRecord): (log: seq<Move>)
    ensures |log| == 2
  {
    [Store(record, c.root), WriteActive]
  }

  /** The states a log goes through. */
  function After(c: Context, files: Files, log: seq<Move>): (trace: seq<Files>)
    ensures |trace| == |log| + 1 && trace[0] == files
    ensures forall i | 0 <= i < |log| :: trace[i + 1] == Effect(c, trace[i], log[i])
    decreases |log|
  {
    if log == [] then [files] else [files] + After(c, Effect(c, files, log[0]), log[1..])
  }

  lemma FilesOfOne(chunk: Chunk)
    ensures FilesOf([chunk]) == chunk.files
  {
    assert [chunk][..0] == [];
  }

  lemma LinkedFromChunk(c: Context, record: ProviderRecord, chunk: Chunk, tree: Tree, files: Files)
    requires OneChunkPin(c, record, chunk, tree) && ChunkPath(c.cache, chunk.chunkId) in files
    requires files[ChunkPath(c.cache, chunk.chunkId)] == Folder(tree)
    ensures Linked(files, c.cache, record, tree)
  {
    hide PinValid, Pinned, Describe;
    FilesOfOne(chunk);
    forall file | file in chunk.files ensures SameNode(files, c.cache, chunk, file, tree) {
      var i :| 0 <= i < |chunk.files| && chunk.files[i] == file;
      assert Holds(tree, chunk.files[i]);
    }
  }

  lemma FirstRunTaken(c: Context, record: ProviderRecord, chunk: Chunk, tree: Tree)
    requires OneChunkPin(c, record, chunk, tree) && c.root != c.cache
    ensures Follows(c, After(c, map[], FirstRun(c, record, chunk, tree)), FirstRun(c, record, chunk, tree))
    ensures ReadyPath(c.root) in After(c, map[], FirstRun(c, record, chunk, tree))[5]
    ensures var last := After(c, map[], FirstRun(c, record, chunk, tree))[5];
            && BundlePath(c.root, record) in last && last[BundlePath(c.root, record)] == Folder(tree)
            && Stored(last, ActivePath(c.root), ActiveFor(c.pin))
  {
    hide PinValid, Pinned, Exact, Describe, EntryOf, ActiveFor, MarkerFor, Linked;
    PathsDiffer();
    var log := FirstRun(c, record, chunk, tree);
    var s := After(c, map[], log);
    assert Allowed(c, s[0], log[0]);
    assert Allowed(c, s[1], log[1]);
    assert Allowed(c, s[2], log[2]) by {
      LinkedFromChunk(c, record, chunk, tree, s[2]);
    }
    assert Allowed(c, s[3], log[3]);
    assert Allowed(c, s[4], log[4]);
  }

  /** A second pin of the same files, with the same manifest or one of its own, that its mode allows. */
  ghost predicate Follower(c: Context, other: Context, record: ProviderRecord, next: ProviderRecord) {
    && other.root == c.root && other.cache == c.cache
    && BundlePath(c.root, next) == BundlePath(c.root, record)
    && (ManifestPath(c.root, next) == ManifestPath(c.root, record) ==> next.chunkManifest == record.chunkManifest)
    && (other.production ==> RecordFollows(next, record))
  }

  lemma SecondRunTaken(
    c: Context, other: Context, record: ProviderRecord, next: ProviderRecord, chunk: Chunk, tree: Tree, files: Files)
    requires OneChunkPin(c, record, chunk, tree) && OneChunkPin(other, next, chunk, tree)
    requires Follower(c, other, record, next)
    requires BundlePath(c.root, record) in files && files[BundlePath(c.root, record)] == Folder(tree)
    requires Stored(files, ActivePath(c.root), ActiveFor(c.pin))
    ensures Follows(other, After(other, files, SecondRun(other, next)), SecondRun(other, next))
  {
    hide PinValid, Pinned, Exact, Describe, EntryOf, MarkerFor, Linked, CompareVersions;
    PathsDiffer();
    var log := SecondRun(other, next);
    var s := After(other, files, log);
    assert Allowed(other, s[0], log[0]);
    assert ActiveEntries(s[1], c.root) == [EntryOf(record)] by {
      OneEntry(record);
    }
    assert Allowed(other, s[1], log[1]);
  }

  lemma OneEntry(record: ProviderRecord)
    ensures SortEntries(EntriesOf([record])) == [EntryOf(record)]
  {
    hide EntryOf;
    var entries := EntriesOf([record]);
    assert entries == [EntryOf(record)] && entries[1..] == [];
    assert Sort(ByProviderId, entries[1..]) == [];
  }

  /** Storing a manifest the pin does not name leaves what its marker stands for. */
  lemma OtherManifest(c: Context, files: Files, path: Path, entry: Entry, full: bool)
    requires path.directory.Manifests? && !path.name.Hex?
    requires forall record | record in c.pin.inputs.providers :: ManifestPath(c.root, record) != path
    requires Completed(files, c) && Genuine(files, c) && ReadyHolds(files, c)
    ensures var next := files[path := entry];
            && Completed(next, c) && Genuine(next, c) && ReadyHolds(next, c)
            && DamageOf(next, c, full) == DamageOf(files, c, full)
  {
    hide Pinned, ActiveFor, MarkerFor, Describe, DamageOf;
    var next, records := files[path := entry], c.pin.inputs.providers;
    SameTreesSameDamage(files, next, c, full);
    forall record | record in records
      ensures RecordInstalled(next, c, record) && Described(next, c.root, record)
    {
      assert RecordInstalled(files, c, record) && Described(files, c.root, record);
    }
    forall i | 0 <= i < |records| ensures ManifestStored(next, c.root, records[i]) {
      assert ManifestStored(files, c.root, records[i]);
    }
    var time :| Stored(files, ReadyPath(c.root), Encoded(MarkerText(MarkerFor(c.pin, time))));
    assert Stored(next, ReadyPath(c.root), Encoded(MarkerText(MarkerFor(c.pin, time))));
  }

  /** Marked, with nothing missing or damaged. */
  ghost predicate Vouches(files: Files, c: Context) {
    && Completed(files, c) && Genuine(files, c) && ReadyHolds(files, c)
    && DamageOf(files, c, true) == Damage({}, {}) && DamageOf(files, c, false) == Damage({}, {})
  }

  lemma FirstRunVouches(c: Context, record: ProviderRecord, chunk: Chunk, tree: Tree)
    requires OneChunkPin(c, record, chunk, tree) && c.root != c.cache
    ensures Vouches(After(c, map[], FirstRun(c, record, chunk, tree))[5], c)
  {
    hide PinValid, Pinned, Exact, Describe, EntryOf, ActiveFor, MarkerFor, OnePin, Completed, Genuine, ReadyHolds,
      DamageOf, Follows, FirstRun, After;
    var log := FirstRun(c, record, chunk, tree);
    var trace := After(c, map[], log);
    FirstRunTaken(c, record, chunk, tree);
    EmptyRoot(map[], c);
    OnePinTrace(c, trace, log, 0, 5);
    MarkedPasses(trace[5], c, true);
    MarkedPasses(trace[5], c, false);
  }

  lemma PinsValid(c: Context, record: ProviderRecord, chunk: Chunk, tree: Tree)
    requires OneChunkPin(c, record, chunk, tree)
    ensures PinValid(c.pin) && c.pin.inputs.providers == [record]
  {
  }

  lemma StoredAgain(files: Files, root: string, record: ProviderRecord, next: ProviderRecord)
    requires ManifestStored(files, root, record) && next.chunkManifest == record.chunkManifest
    ensures files[ManifestPath(root, next) := File(Store(next, root).raw)] == files
  {
    hide ManifestFor;
  }

  lemma StoredBetween(
    c: Context, other: Context, record: ProviderRecord, next: ProviderRecord, chunk: Chunk, tree: Tree, files: Files)
    requires OneChunkPin(c, record, chunk, tree) && Follower(c, other, record, next) && Vouches(files, c)
    ensures Vouches(After(other, files, SecondRun(other, next))[1], c)
  {
    hide OneChunkPin, Completed, Genuine, DamageOf, RecordFollows, Pinned;
    PinsValid(c, record, chunk, tree);
    var move := Store(next, c.root);
    if ManifestPath(c.root, next) == ManifestPath(c.root, record) {
      assert ManifestStored(files, c.root, c.pin.inputs.providers[0]);
      StoredAgain(files, c.root, record, next);
    } else {
      hide ReadyHolds;
      OtherManifest(c, files, ManifestPath(c.root, next), File(move.raw), true);
      OtherManifest(c, files, ManifestPath(c.root, next), File(move.raw), false);
    }
  }

  lemma OneFollows(c: Context, other: Context, record: ProviderRecord, next: ProviderRecord)
    requires c.pin.inputs.providers == [record] && other.pin.inputs.providers == [next]
    ensures MayFollow(c.pin.inputs, other.pin.inputs) <==> RecordFollows(record, next)
  {
    hide RecordFollows;
    assert record in c.pin.inputs.providers && next in other.pin.inputs.providers;
  }

  /**
   From the empty root, a first run to its end and a second up to the first of
   its two writes: the root is complete for the first pin until that write, whose
   own conditions hold. After it the first pin's next run reuses exactly if it is
   not in production or its Provider may follow the second pin's, and active.json
   is right exactly if both list the same.
  */
  lemma StaleHistory(
    c: Context, other: Context, record: ProviderRecord, next: ProviderRecord, chunk: Chunk, tree: Tree)
    returns (states: seq<Files>, steps: seq<Step>)
    requires OneChunkPin(c, record, chunk, tree) && OneChunkPin(other, next, chunk, tree)
    requires Follower(c, other, record, next) && c.root != c.cache
    ensures History(states, steps) && states[0] == map[] && |steps| == 7
    ensures steps == StepsOf(c, FirstRun(c, record, chunk, tree)) + StepsOf(other, SecondRun(other, next))
    ensures Vouches(states[6], c)
    ensures Allowed(other, states[6], WriteActive) && states[7] == Effect(other, states[6], WriteActive)
    ensures Genuine(states[7], c)
    ensures forall full :: Reuses(states[7], c, full) <==> (c.production ==> RecordFollows(record, next))
    ensures Stored(states[7], ActivePath(c.root), ActiveFor(c.pin)) <==> ListsSame(c.pin.inputs, other.pin.inputs)
    ensures Stored(states[7], ActivePath(c.root), ActiveFor(other.pin))
  {
    hide OneChunkPin, Completed, Genuine, ReadyHolds, DamageOf, Allowed, Taken, ListsSame, ActiveFor, Reuses,
      RecordFollows, MayFollow, Follower;
    var log, more := FirstRun(c, record, chunk, tree), SecondRun(other, next);
    var trace := After(c, map[], log);
    FirstRunTaken(c, record, chunk, tree);
    FirstRunVouches(c, record, chunk, tree);
    var rest := After(other, trace[5], more);
    SecondRunTaken(c, other, record, next, chunk, tree, trace[5]);
    states, steps := TwoRuns(c, other, trace, rest, log, more);
    StoredBetween(c, other, record, next, chunk, tree, trace[5]);
    FollowsAt(other, rest, more, 1);
    PinsValid(c, record, chunk, tree);
    PinsValid(other, next, chunk, tree);
    SameRoot(c, other, record, next);
    OneFollows(c, other, record, next);
    StaleActive(c, other, states[6], true);
    StaleActive(c, other, states[6], false);
  }

  lemma SameRoot(c: Context, other: Context, record: ProviderRecord, next: ProviderRecord)
    requires Follower(c, other, record, next)
    ensures other.root == c.root
  {
  }

  lemma TwoRuns(
    c: Context, other: Context, trace: seq<Files>, rest: seq<Files>, log: seq<Move>, more: seq<Move>)
    returns (states: seq<Files>, steps: seq<Step>)
    requires Follows(c, trace, log) && Follows(other, rest, more) && |log| == 5 && |more| == 2
    requires trace[0] == map[] && rest[0] == trace[5]
    ensures History(states, steps) && steps == StepsOf(c, log) + StepsOf(other, more)
    ensures states[0] == map[] && states[6] == rest[1] && states[7] == rest[2]
  {
    hide Taken;
    states, steps := [map[]], [];
    RunContinues(states, steps, c, trace, log, 5);
    states, steps := states + trace[1..6], steps + StepsOf(c, log[..5]);
    assert log[..5] == log && states[5] == trace[5];
    RunContinues(states, steps, other, rest, more, 2);
    states, steps := states + rest[1..3], steps + StepsOf(other, more[..2]);
    assert more[..2] == more;
  }

  // ---------------------------------------------------------------------
  // Three such histories.
  // ---------------------------------------------------------------------

  function ContextOf(major: char, source: nat, production: bool): Context {
    Context("root", "cache", PinOf(major, true, source), production)
  }

  lemma ExampleOneChunk(major: char, source: nat, production: bool)
    requires IsDigit(major)
    ensures OneChunkPin(ContextOf(major, source, production), RecordOf(major, true), ChunkOf(true), PinnedTree(true))
  {
    hide PinValid, Pinned, Exact, Describe, EntryOf, PinnedTree, PinnedList, RecordOf;
    PinIsValid(major, true, source);
    ManifestIsFor(major, true);
    TreeExact(true);
    TreeDescribed(major, true);
  }

  lemma ExampleUpgrade()
    ensures RecordFollows(RecordOf('2', true), RecordOf('1', true))
    ensures !RecordFollows(RecordOf('1', true), RecordOf('2', true))
    ensures IsDowngrade(RecordOf('1', true), EntryOf(RecordOf('2', true)))
  {
    assert ParseDigits("2", 0) == Parsed(true, 2) && ParseDigits("1", 0) == Parsed(true, 1);
    assert VersionOf('2') == "2" + ".0.0" && VersionOf('1') == "1" + ".0.0";
    hide ParseDigits, CompareVersions;
    FirstFieldDecides("2", "1");
    RecordIsValid('1', true);
    RecordIsValid('2', true);
    VersionsFlip(RecordOf('1', true), RecordOf('2', true));
  }

  lemma ExampleFollower(source: nat, production: bool)
    ensures Follower(
      ContextOf('1', source, production), ContextOf('2', source, production), RecordOf('1', true), RecordOf('2', true))
  {
    hide RecordFollows, ManifestAsset, VersionOf, PinnedManifest, IntegrityBytes;
    ExampleUpgrade();
    AssetsApart();
  }

  lemma AssetsApart()
    ensures ManifestAsset(ID, VersionOf('1')) != ManifestAsset(ID, VersionOf('2'))
  {
    var x, y := ManifestAsset(ID, VersionOf('1')), ManifestAsset(ID, VersionOf('2'));
    assert x[12] == '1' && y[12] == '2';
  }

  lemma ExampleDiffers(source: nat)
    ensures !ListsSame(PinOf('1', true, source).inputs, PinOf('2', true, source).inputs)
  {
    var a, b := PinOf('1', true, source).inputs, PinOf('2', true, source).inputs;
    assert a.providers[0].providerVersion[0] != b.providers[0].providerVersion[0];
    assert a.providers[0] in a.providers;
    assert !HasListing(a.providers[0], b.providers);
  }

  /** In production: 1.0.0 completed, an upgrade to 2.0.0 cut off. A run for 1.0.0 is refused as a downgrade. */
  lemma DowngradeRefused() returns (states: seq<Files>, steps: seq<Step>)
    ensures History(states, steps) && states[0] == map[] && |steps| == 7
    ensures forall i | 0 <= i < 7 :: steps[i].c == ContextOf(if i < 5 then '1' else '2', 0, true)
    ensures Vouches(states[6], ContextOf('1', 0, true)) && Allowed(ContextOf('2', 0, true), states[6], WriteActive)
    ensures forall full :: !Reuses(states[7], ContextOf('1', 0, true), full)
    ensures !VersionsAllow(states[7], "root", PinOf('1', true, 0).inputs)
    ensures forall error :: Refused(states[7], ContextOf('1', 0, true), error) <==> error == Downgrade
  {
    hide OneChunkPin, Follower, Vouches, Allowed, ActiveFor, History, RecordOf, ChunkOf, PinnedTree, Reuses, Genuine,
      RecordFollows, IsDowngrade, VersionsAllow, Refused;
    var c, other := ContextOf('1', 0, true), ContextOf('2', 0, true);
    ExampleOneChunk('1', 0, true);
    ExampleOneChunk('2', 0, true);
    ExampleFollower(0, true);
    ExampleUpgrade();
    states, steps := StaleHistory(c, other, RecordOf('1', true), RecordOf('2', true), ChunkOf(true), PinnedTree(true));
    HistoryLength(states, steps);
    OneFollows(c, other, RecordOf('1', true), RecordOf('2', true));
    VersionsAfter(c, other, states[7]);
    OneRefused(c, other, states[7], RecordOf('1', true), RecordOf('2', true));
  }

  lemma OneRefused(c: Context, other: Context, files: Files, record: ProviderRecord, next: ProviderRecord)
    requires c.production && other.root == c.root && Stored(files, ActivePath(c.root), ActiveFor(other.pin))
    requires c.pin.inputs.providers == [record] && other.pin.inputs.providers == [next]
    requires IsDowngrade(record, EntryOf(next))
    ensures forall error :: Refused(files, c, error) <==> error == Downgrade
  {
    hide CompareVersions, EntryOf;
    OneEntry(next);
    assert ActiveEntries(files, c.root) == [EntryOf(next)];
    assert FirstConflict([record], [EntryOf(next)], 0, 0);
  }

  /**
   In production: the same Provider built from another source tree, and that run
   cut off. The first pin's next run reuses, and active.json is the other's.
  */
  lemma StaleReusedInProduction() returns (states: seq<Files>, steps: seq<Step>)
    ensures History(states, steps) && states[0] == map[] && |steps| == 7
    ensures forall i | 0 <= i < 7 :: steps[i].c == ContextOf('1', if i < 5 then 0 else 1, true)
    ensures Genuine(states[7], ContextOf('1', 0, true))
    ensures forall full :: Reuses(states[7], ContextOf('1', 0, true), full)
    ensures !Stored(states[7], ActivePath("root"), ActiveFor(PinOf('1', true, 0)))
    ensures Stored(states[7], ActivePath("root"), ActiveFor(PinOf('1', true, 1)))
  {
    hide OneChunkPin, Vouches, Allowed, ActiveFor, History, RecordOf, ChunkOf, PinnedTree, Reuses, Genuine,
      RecordFollows;
    var c, other, record := ContextOf('1', 0, true), ContextOf('1', 1, true), RecordOf('1', true);
    ExampleOneChunk('1', 0, true);
    ExampleOneChunk('1', 1, true);
    ItselfFollows(record);
    states, steps := StaleHistory(c, other, record, record, ChunkOf(true), PinnedTree(true));
  }

  lemma ItselfFollows(record: ProviderRecord)
    ensures record == RecordOf('1', true) ==> RecordFollows(record, record)
  {
    hide CompareVersions;
    RecordIsValid('1', true);
    if record == RecordOf('1', true) {
      VersionEqualsItself(record);
    }
  }

  /** In tooling mode: 1.0.0 completed, an upgrade to 2.0.0 cut off. A run for 1.0.0 reuses; active.json lists 2.0.0. */
  lemma StaleReusedInTooling() returns (states: seq<Files>, steps: seq<Step>)
    ensures History(states, steps) && states[0] == map[] && |steps| == 7
    ensures forall i | 0 <= i < 7 :: steps[i].c == ContextOf(if i < 5 then '1' else '2', 0, false)
    ensures Genuine(states[7], ContextOf('1', 0, false))
    ensures forall full :: Reuses(states[7], ContextOf('1', 0, false), full)
    ensures !Stored(states[7], ActivePath("root"), ActiveFor(PinOf('1', true, 0)))
    ensures Stored(states[7], ActivePath("root"), ActiveFor(PinOf('2', true, 0)))
  {
    hide OneChunkPin, Follower, Vouches, Allowed, ActiveFor, History, RecordOf, ChunkOf, PinnedTree, Reuses, Genuine;
    var c, other := ContextOf('1', 0, false), ContextOf('2', 0, false);
    ExampleOneChunk('1', 0, false);
    ExampleOneChunk('2', 0, false);
    ExampleFollower(0, false);
    ExampleDiffers(0);
    states, steps := StaleHistory(c, other, RecordOf('1', true), RecordOf('2', true), ChunkOf(true), PinnedTree(true));
  }
}
