/**
 The step invariants along whole traces, and the two more that recovery and full
 repair need.
*/
module InstallTraces {
  import opened Wrappers
  import opened Semver
  import opened Versions
  import opened VersionLaws
  import opened ProviderInputs
  import opened Bundles
  import opened Moves
  import opened InstallInvariants
  import opened Sorting

  lemma FollowsAt(c: Context, trace: seq<Files>, log: seq<Move>, i: nat)
    requires Follows(c, trace, log) && i < |log|
    ensures Allowed(c, trace[i], log[i]) && trace[i + 1] == Effect(c, trace[i], log[i])
  {
    hide Allowed, Effect;
    assert Taken(c, trace[i], log[i], trace[i + 1]);
  }

  lemma FollowsLength(c: Context, trace: seq<Files>, log: seq<Move>)
    requires Follows(c, trace, log)
    ensures |trace| == |log| + 1
  {
  }

  /** Wherever a run for the pin is cut off, the invariant holds. */
  lemma {:induction false} OnePinTrace(c: Context, trace: seq<Files>, log: seq<Move>, from: nat, to: nat)
    requires PinValid(c.pin) && Follows(c, trace, log) && from <= to < |trace| && OnePin(trace[from], c)
    ensures OnePin(trace[to], c)
  {
    hide PinValid, Follows, OnePin;
    if from < to {
      OnePinTrace(c, trace, log, from, to - 1);
      FollowsLength(c, trace, log);
      FollowsAt(c, trace, log, to - 1);
      OnePinKept(c, trace[to - 1], log[to - 1]);
    }
  }

  // ---------------------------------------------------------------------
  // Listed files have their size, or their pinned bytes, whatever else is on disk.
  // ---------------------------------------------------------------------

  ghost predicate ChunkWhole(files: Files, cache: string, chunk: Chunk, bytes: bool) {
    ChunkPath(cache, chunk.chunkId) in files ==>
      AllThere(TreeAt(files, ChunkPath(cache, chunk.chunkId)), chunk.files, bytes)
  }

  ghost predicate RecordWhole(files: Files, c: Context, record: ProviderRecord, bytes: bool) {
    && (forall chunk | chunk in ChunksOf(record) :: ChunkWhole(files, c.cache, chunk, bytes))
    && (BundlePath(c.root, record) in files ==>
          AllThere(TreeAt(files, BundlePath(c.root, record)), BundleFiles(record), bytes))
  }

  ghost predicate Whole(files: Files, c: Context, bytes: bool) {
    forall record | record in c.pin.inputs.providers :: Pinned(record) && RecordWhole(files, c, record, bytes)
  }

  lemma SameChunkFiles(record: ProviderRecord, chunk: Chunk, other: ProviderRecord, twin: Chunk)
    requires Pinned(record) && Pinned(other) && chunk in ChunksOf(record) && twin in ChunksOf(other)
    ensures chunk.chunkId == twin.chunkId ==> chunk.files == twin.files
  {
    PinnedChunk(record, chunk);
    PinnedChunk(other, twin);
  }

  lemma LinkedWhole(files: Files, c: Context, record: ProviderRecord, tree: Tree, bytes: bool)
    requires RecordWhole(files, c, record, bytes) && Linked(files, c.cache, record, tree)
    ensures AllThere(tree, BundleFiles(record), bytes)
  {
    forall file | file in BundleFiles(record) ensures FileThere(tree, file, bytes) {
      ListedInChunk(ChunksOf(record), file);
      var chunk :| chunk in ChunksOf(record) && file in chunk.files;
      assert SameNode(files, c.cache, chunk, file, tree);
      assert ChunkWhole(files, c.cache, chunk, bytes);
      assert FileThere(TreeAt(files, ChunkPath(c.cache, chunk.chunkId)), file, bytes);
    }
  }

  lemma ChunkWholeKept(c: Context, a: Files, move: Move, record: ProviderRecord, chunk: Chunk, bytes: bool)
    requires Allowed(c, a, move) && Pinned(record) && chunk in ChunksOf(record) && ChunkWhole(a, c.cache, chunk, bytes)
    ensures ChunkWhole(Effect(c, a, move), c.cache, chunk, bytes)
  {
    hide Linked, VersionsAllow, Pinned, Describe, ChunkDamaged, Unreferenced, MarkerAt, ActiveFor, MarkerFor, HoldsAll,
      AllThere;
    if move.PublishChunk? {
      SameChunkFiles(record, chunk, move.record, move.chunk);
      HeldIsThere(move.tree, move.chunk.files);
    }
  }

  lemma BundleWholeKept(c: Context, a: Files, move: Move, record: ProviderRecord, bytes: bool)
    requires PinValid(c.pin) && Allowed(c, a, move) && record in c.pin.inputs.providers
    requires RecordWhole(a, c, record, bytes)
    ensures var b := Effect(c, a, move);
            BundlePath(c.root, record) in b ==> AllThere(TreeAt(b, BundlePath(c.root, record)), BundleFiles(record), bytes)
  {
    hide Linked, VersionsAllow, Pinned, Describe, ChunkDamaged, Unreferenced, MarkerAt, ActiveFor, MarkerFor, AllThere,
      PinValid, ChunkWhole;
    if move.PublishBundle? {
      OwnPaths(c, record, move.record);
      if move.record == record {
        LinkedWhole(a, c, record, move.tree, bytes);
      }
    }
  }

  /** No step gives a listed file another size, or takes its pinned bytes. */
  lemma WholeKept(c: Context, a: Files, move: Move, bytes: bool)
    requires PinValid(c.pin) && Allowed(c, a, move) && Whole(a, c, bytes)
    ensures Whole(Effect(c, a, move), c, bytes)
  {
    hide PinValid, Allowed, Effect, ChunkWhole, Pinned;
    var b := Effect(c, a, move);
    forall record | record in c.pin.inputs.providers ensures Pinned(record) && RecordWhole(b, c, record, bytes) {
      assert RecordWhole(a, c, record, bytes);
      BundleWholeKept(c, a, move, record, bytes);
      forall chunk | chunk in ChunksOf(record) ensures ChunkWhole(b, c.cache, chunk, bytes) {
        ChunkWholeKept(c, a, move, record, chunk, bytes);
      }
    }
  }

  lemma {:induction false} WholeTrace(c: Context, trace: seq<Files>, log: seq<Move>, from: nat, to: nat, bytes: bool)
    requires PinValid(c.pin) && Follows(c, trace, log) && from <= to < |trace| && Whole(trace[from], c, bytes)
    ensures Whole(trace[to], c, bytes)
  {
    hide PinValid, Follows, Whole;
    if from < to {
      WholeTrace(c, trace, log, from, to - 1, bytes);
      FollowsLength(c, trace, log);
      FollowsAt(c, trace, log, to - 1);
      WholeKept(c, trace[to - 1], log[to - 1], bytes);
    }
  }

  // ---------------------------------------------------------------------
  // active.json lists exactly the pinned Providers, in order.
  // ---------------------------------------------------------------------

  lemma ByProviderIdLaws()
    ensures Consistent(ByProviderId)
    ensures forall a, b :: ByProviderId(a, b) == 0 <==> a.providerId == b.providerId
  {
    hide CompareStrings, LexLess;
    CharsOrdered();
    forall a: ActiveProvider, b: ActiveProvider, c: ActiveProvider
      ensures ByProviderId(a, b) < 0 <==> ByProviderId(b, a) > 0
      ensures ByProviderId(a, b) == 0 <==> a.providerId == b.providerId
      ensures ByProviderId(a, b) < 0 && ByProviderId(b, c) < 0 ==> ByProviderId(a, c) < 0
    {
      CompareStringsIsTextOrder(a.providerId, b.providerId);
      CompareStringsIsTextOrder(b.providerId, a.providerId);
      CompareStringsIsTextOrder(b.providerId, c.providerId);
      CompareStringsIsTextOrder(a.providerId, c.providerId);
      if TextLess(a.providerId, b.providerId) && TextLess(b.providerId, c.providerId) {
        LexTransitive(CharLess, a.providerId, b.providerId, c.providerId);
      }
    }
  }

  lemma EntriesDiffer(pin: Pin)
    requires PinValid(pin)
    ensures AllDiffer(ByProviderId, EntriesOf(pin.inputs.providers))
  {
    hide ByProviderId, RecordValid;
    ByProviderIdLaws();
  }

  lemma EntriesAscend(pin: Pin)
    requires PinValid(pin)
    ensures Ascends(ByProviderId, SortEntries(EntriesOf(pin.inputs.providers)))
  {
    hide ByProviderId, PinValid, EntriesOf;
    ByProviderIdLaws();
    EntriesDiffer(pin);
    SortAscends(ByProviderId, EntriesOf(pin.inputs.providers));
  }

  lemma SortedMember(entries: seq<ActiveProvider>, entry: ActiveProvider)
    ensures entry in SortEntries(entries) <==> entry in entries
  {
    SortMember(ByProviderId, entries, entry);
  }

  /** What active.json says for a pin. */
  lemma ActiveExactly(pin: Pin)
    requires PinValid(pin)
    ensures ActiveFor(pin).decoded.ActiveText?
    ensures var active, inputs := ActiveFor(pin).decoded.active, pin.inputs;
      && active.schemaVersion == 1 && active.release == inputs.release
      && (inputs.release.None? ==> active.sourceTree == Some(inputs.sourceTreeSha256))
      && (inputs.release.Some? ==> active.sourceTree == None)
      && |active.providers| == |inputs.providers|
      && (forall record | record in inputs.providers :: EntryOf(record) in active.providers)
      && (forall i, j | 0 <= i < j < |active.providers| ::
            TextLess(active.providers[i].providerId, active.providers[j].providerId))
  {
    hide EntryOf, PinValid;
    var entries := EntriesOf(pin.inputs.providers);
    EntriesAscend(pin);
    forall record | record in pin.inputs.providers ensures EntryOf(record) in SortEntries(entries) {
      var i :| 0 <= i < |pin.inputs.providers| && pin.inputs.providers[i] == record;
      assert entries[i] == EntryOf(record);
      SortedMember(entries, EntryOf(record));
    }
    SortContents(ByProviderId, entries);
    assert |SortEntries(entries)| == |multiset(SortEntries(entries))|;
    var sorted := SortEntries(entries);
    forall i, j | 0 <= i < j < |sorted| ensures TextLess(sorted[i].providerId, sorted[j].providerId) {
      CompareStringsIsTextOrder(sorted[i].providerId, sorted[j].providerId);
    }
  }

  /** What ready.json says for a pin. */
  lemma MarkerExactly(pin: Pin, time: int)
    ensures var marker, records := MarkerFor(pin, time), pin.inputs.providers;
      && marker.schemaVersion == 1 && marker.inputsSha256 == pin.digest && marker.completedAtMs == time
      && |marker.providers| == |records|
      && forall i | 0 <= i < |records| ::
           && marker.providers[i].providerId == records[i].providerId
           && marker.providers[i].providerVersion == records[i].providerVersion
           && marker.providers[i].bundleSha256 == records[i].bundleSha256
           && forall id :: id in marker.providers[i].chunks <==>
                exists chunk :: chunk in ChunksOf(records[i]) && chunk.chunkId == id
  {
  }

  /** A pin never counts as a downgrade or a rebuild of itself. */
  lemma OwnVersionsAllowed(files: Files, c: Context)
    requires PinValid(c.pin) && ActiveOurs(files, c)
    ensures VersionsAllow(files, c.root, c.pin.inputs)
  {
    hide CompareVersions, EntryOf;
    var records := c.pin.inputs.providers;
    forall pinned, installed | pinned in records && installed in ActiveEntries(files, c.root)
      ensures UpgradeAllowed(pinned, installed)
    {
      SortedMember(EntriesOf(records), installed);
      var i :| 0 <= i < |records| && EntriesOf(records)[i] == installed;
      var j :| 0 <= j < |records| && records[j] == pinned;
      if pinned.providerId == installed.providerId {
        SameRecord(c.pin, i, j);
        VersionEqualsItself(pinned);
      }
    }
  }

  lemma SameRecord(pin: Pin, i: nat, j: nat)
    requires PinValid(pin) && i < |pin.inputs.providers| && j < |pin.inputs.providers|
    requires pin.inputs.providers[i].providerId == pin.inputs.providers[j].providerId
    ensures i == j
    ensures RecordValid(pin.inputs.providers[i])
  {
  }

  lemma VersionEqualsItself(record: ProviderRecord)
    requires RecordValid(record)
    ensures CompareVersions(record.providerVersion, record.providerVersion) == 0
  {
    CompareVersionsSymmetry(record.providerVersion, record.providerVersion);
  }
}
