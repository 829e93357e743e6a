/**
 A chunk cache shared by many Provider roots: tooling synchronizations and
 garbage collections, serialized by the cache lock, each cut off anywhere
 (`internal/providersync/gc.go`, `sync.go:94-105`, `check.go:143-145`).
*/
module SharedCache {
  import opened Wrappers
  import opened ProviderInputs
  import opened Bundles
  import opened Moves
  import opened InstallInvariants
  import opened InstallTraces
  import opened SyncFiles

  // ---------------------------------------------------------------------
  // CollectGarbage.
  // ---------------------------------------------------------------------

  /** The root has no marker, or one that can be read. */
  predicate MarkerReadable(files: Files, root: string) {
    ReadyPath(root) in files ==> MarkerAt(files, root).Some?
  }

  /** Some listed root's marker names the chunk. */
  predicate Referenced(files: Files, roots: seq<string>, id: Digest) {
    exists i :: 0 <= i < |roots| && MarkerAt(files, roots[i]).Some? && MarksChunk(MarkerAt(files, roots[i]).value, id)
  }

  predicate Collectable(files: Files, cache: string, roots: seq<string>, path: Path) {
    && path in files && path.directory == Base(cache) && path.name.Hex? && files[path].Folder?
    && !Referenced(files, roots, path.name.digest)
  }

  function CacheGarbage(files: Files, cache: string, roots: seq<string>): set<Path> {
    set path | path in files && Collectable(files, cache, roots, path)
  }

  method MarkedChunks(files: Files, roots: seq<string>) returns (keep: Outcome<set<Digest>>)
    ensures keep.Done? <==> forall i | 0 <= i < |roots| :: MarkerReadable(files, roots[i])
    ensures keep.Done? ==> forall id :: id in keep.value <==> Referenced(files, roots, id)
    ensures keep.Failed? ==> keep.error == InputsInvalid
  {
    hide MarkerAt;
    var marked: set<Digest>, i := {}, 0;
    while i < |roots|
      invariant i <= |roots| && forall k | 0 <= k < i :: MarkerReadable(files, roots[k])
      invariant forall id :: id in marked <==>
        exists k :: 0 <= k < i && MarkerAt(files, roots[k]).Some? && MarksChunk(MarkerAt(files, roots[k]).value, id)
    {
      var marker := MarkerAt(files, roots[i]);
      if marker.None? {
        NoMarker(files, roots[i]);
        if ReadyPath(roots[i]) in files {
          return Failed(InputsInvalid);
        }
      } else {
        var own := ChunksMarked(marker.value);
        marked := marked + own;
      }
      i := i + 1;
    }
    return Done(marked);
  }

  lemma NoMarker(files: Files, root: string)
    ensures ReadyPath(root) !in files ==> MarkerAt(files, root).None?
  {
  }

  method ChunksMarked(marker: ReadyMarker) returns (keep: set<Digest>)
    ensures forall id :: id in keep <==> MarksChunk(marker, id)
  {
    keep := {};
    var i := 0;
    while i < |marker.providers|
      invariant i <= |marker.providers|
      invariant forall id :: id in keep <==> exists k :: 0 <= k < i && id in marker.providers[k].chunks
    {
      keep := keep + marker.providers[i].chunks;
      i := i + 1;
    }
  }

  /** The files a collection works on, and what each of its removals left. */
  class Collection {
    const cache: string
    var files: Files
    ghost var trace: seq<Files>

    constructor (cache: string, files: Files)
      ensures this.cache == cache && this.files == files && trace == [files]
    {
      this.cache, this.files, trace := cache, files, [files];
    }

    /**
     Removes exactly the digest-named directories no listed root's marker names;
     stopped anywhere, it has removed only some of them. An unreadable marker
     stops it before anything is removed.
    */
    method CollectGarbage(roots: seq<string>) returns (removed: Outcome<nat>)
      requires trace == [files]
      modifies this
      ensures removed.Done? <==> forall i | 0 <= i < |roots| :: MarkerReadable(old(files), roots[i])
      ensures removed.Failed? ==> removed.error == InputsInvalid && trace == [old(files)]
      ensures removed.Done? ==> files == old(files) - CacheGarbage(old(files), cache, roots)
      ensures removed.Done? ==> removed.value == |CacheGarbage(old(files), cache, roots)|
      ensures trace != [] && trace[|trace| - 1] == files
      ensures forall k | 0 <= k < |trace| :: PartlyCollected(old(files), trace[k], cache, roots)
    {
      hide Collectable, MarkerReadable, Referenced, PartlyCollected, CacheGarbage;
      PartlyAll(files, cache, roots);
      var keep := MarkedChunks(files, roots);
      if keep.Failed? {
        return Failed(keep.error);
      }
      var garbage := set path | path in files && path.directory == Base(cache) && path.name.Hex?
                                && files[path].Folder? && path.name.digest !in keep.value;
      SameGarbage(files, cache, roots, keep.value, garbage);
      RemoveEach(garbage, roots);
      return Done(|garbage|);
    }

    method RemoveEach(garbage: set<Path>, ghost roots: seq<string>)
      requires trace == [files] && garbage == CacheGarbage(files, cache, roots)
      modifies this
      ensures files == old(files) - garbage && trace != [] && trace[|trace| - 1] == files
      ensures forall k | 0 <= k < |trace| :: PartlyCollected(old(files), trace[k], cache, roots)
    {
      hide PartlyCollected, CacheGarbage;
      var left := garbage;
      PartlyAll(files, cache, roots);
      while left != {}
        invariant left <= garbage && files == old(files) - (garbage - left)
        invariant trace != [] && trace[|trace| - 1] == files
        invariant forall k | 0 <= k < |trace| :: PartlyCollected(old(files), trace[k], cache, roots)
        decreases |left|
      {
        var path :| path in left;
        assert garbage - (left - {path}) == garbage - left + {path};
        left := left - {path};
        files := files - {path};
        PartlySome(old(files), cache, roots, garbage - left);
        trace := trace + [files];
      }
      assert garbage - left == garbage;
    }
  }

  lemma SameGarbage(files: Files, cache: string, roots: seq<string>, keep: set<Digest>, garbage: set<Path>)
    requires forall id :: id in keep <==> Referenced(files, roots, id)
    requires garbage == set path | path in files && path.directory == Base(cache) && path.name.Hex?
                                   && files[path].Folder? && path.name.digest !in keep
    ensures garbage == CacheGarbage(files, cache, roots)
  {
    hide Referenced;
  }

  ghost predicate PartlyCollected(before: Files, after: Files, cache: string, roots: seq<string>) {
    exists gone :: gone <= CacheGarbage(before, cache, roots) && after == before - gone
  }

  lemma PartlySome(files: Files, cache: string, roots: seq<string>, gone: set<Path>)
    requires gone <= CacheGarbage(files, cache, roots)
    ensures PartlyCollected(files, files - gone, cache, roots)
  {
  }

  lemma PartlyAll(files: Files, cache: string, roots: seq<string>)
    ensures PartlyCollected(files, files, cache, roots)
  {
    hide CacheGarbage;
    assert files == files - {};
    var none: set<Path> := {};
    assert none <= CacheGarbage(files, cache, roots) && files == files - none;
  }

  // ---------------------------------------------------------------------
  // Histories of the cache and of every root that uses it.
  // ---------------------------------------------------------------------

  datatype Step = Synchronize(c: Context, move: Move) | Remove(roots: seq<string>, id: Digest)

  ghost predicate Takes(cache: string, a: Files, step: Step, b: Files) {
    match step
    case Synchronize(c, move) => c.cache == cache && !c.production && PinValid(c.pin) && Taken(c, a, move, b)
    case Remove(roots, id) => !Referenced(a, roots, id) && b == a - {ChunkPath(cache, id)}
  }

  /** Every synchronization is of one of the roots and every collection lists all of them. */
  ghost predicate Covers(step: Step, roots: seq<string>) {
    match step
    case Synchronize(c, _) => c.root in roots
    case Remove(listed, _) => forall root | root in roots :: root in listed
  }

  ghost predicate History(cache: string, roots: seq<string>, states: seq<Files>, steps: seq<Step>) {
    && |states| == |steps| + 1
    && forall i | 0 <= i < |steps| :: Covers(steps[i], roots) && Takes(cache, states[i], steps[i], states[i + 1])
  }

  /** What a collection removed is a sequence of such steps. */
  lemma {:induction false} CollectionIsSteps(
    before: Files, cache: string, roots: seq<string>, ids: seq<Digest>, i: nat)
    requires i < |ids| && !Referenced(before, roots, ids[i])
    ensures Takes(cache, Without(before, cache, ids[..i]), Remove(roots, ids[i]), Without(before, cache, ids[..i + 1]))
  {
    MarkersStay(before, cache, roots, ids[..i], ids[i]);
    var a, b := Without(before, cache, ids[..i]), Without(before, cache, ids[..i + 1]);
    assert ids[..i + 1] == ids[..i] + [ids[i]];
    assert b == a - {ChunkPath(cache, ids[i])};
  }

  function Without(files: Files, cache: string, ids: seq<Digest>): Files {
    files - set id | id in ids :: ChunkPath(cache, id)
  }

  lemma MarkersStay(files: Files, cache: string, roots: seq<string>, ids: seq<Digest>, id: Digest)
    ensures Referenced(Without(files, cache, ids), roots, id) <==> Referenced(files, roots, id)
  {
    forall root ensures MarkerAt(Without(files, cache, ids), root) == MarkerAt(files, root) {
    }
  }

  // ---------------------------------------------------------------------
  // The invariant: markers are genuine and their chunks are there.
  // ---------------------------------------------------------------------

  function MarkedPin(marker: ReadyMarker): Option<Pin> {
    if marker.inputsSha256.OfContent? && marker.inputsSha256.content.decoded.DescriptorText?
    then Some(Pin(marker.inputsSha256.content.decoded.inputs, marker.inputsSha256)) else None
  }

  ghost predicate RootMarked(files: Files, root: string, cache: string) {
    ReadyPath(root) in files ==>
      && MarkerAt(files, root).Some?
      && var marker := MarkerAt(files, root).value;
         && MarkedPin(marker).Some? && marker == MarkerFor(MarkedPin(marker).value, marker.completedAtMs)
         && forall record | record in MarkedPin(marker).value.inputs.providers ::
              Pinned(record) && ChunksPresent(files, cache, record)
  }

  ghost predicate Shared(files: Files, cache: string, roots: seq<string>) {
    && CacheSound(files, cache)
    && forall root | root in roots :: RootMarked(files, root, cache)
  }

  /** Without outside damage no check finds a published chunk damaged. */
  lemma SoundNotDamaged(files: Files, cache: string, record: ProviderRecord, chunk: Chunk, full: bool)
    requires CacheSound(files, cache) && Pinned(record) && chunk in ChunksOf(record)
    requires ChunkPath(cache, chunk.chunkId) in files
    ensures !ChunkDamaged(files, cache, chunk, full)
  {
    PinnedChunk(record, chunk);
    var path := ChunkPath(cache, chunk.chunkId);
    assert ChunkSound(files[path], chunk.chunkId);
    forall file | file in chunk.files ensures CachedMatches(files, cache, chunk, file, full) {
      var i :| 0 <= i < |chunk.files| && chunk.files[i] == file;
      assert Holds(files[path].tree, chunk.files[i]);
    }
  }

  /** A tooling synchronization without damage never takes a chunk out of the cache. */
  lemma ChunksStay(c: Context, a: Files, move: Move, id: Digest)
    requires !c.production && CacheSound(a, c.cache) && Allowed(c, a, move) && ChunkPath(c.cache, id) in a
    ensures ChunkPath(c.cache, id) in Effect(c, a, move)
  {
    hide Exact, Linked, VersionsAllow, Pinned, Describe, ChunkDamaged, MarkerAt, ActiveFor, MarkerFor, CacheSound;
    if move.DiscardChunk? && ChunkPath(c.cache, move.chunk.chunkId) in a {
      SoundNotDamaged(a, c.cache, move.record, move.chunk, move.full);
    }
  }

  lemma MarkerElsewhere(c: Context, a: Files, move: Move, root: string)
    requires Allowed(c, a, move) && (root != c.root || !(move.WriteReady? || move.DropReady?))
    ensures MarkerAt(Effect(c, a, move), root) == MarkerAt(a, root)
    ensures ReadyPath(root) in Effect(c, a, move) <==> ReadyPath(root) in a
  {
    hide Exact, Linked, VersionsAllow, Pinned, Describe, ChunkDamaged, ActiveFor, MarkerFor;
    PathsDiffer();
  }

  lemma RootMarkedKept(c: Context, a: Files, move: Move, root: string)
    requires PinValid(c.pin) && !c.production && CacheSound(a, c.cache) && Allowed(c, a, move)
    requires RootMarked(a, root, c.cache)
    ensures RootMarked(Effect(c, a, move), root, c.cache)
  {
    hide PinValid, CacheSound, Allowed, Effect, MarkerAt, MarkerFor, Pinned;
    var b := Effect(c, a, move);
    if root == c.root && move.WriteReady? {
      WrittenMarked(c, a, move.time);
    } else if root == c.root && move.DropReady? {
      DroppedMarked(c, a);
    } else {
      MarkerElsewhere(c, a, move, root);
      forall record, chunk | chunk in ChunksOf(record) && ChunkPath(c.cache, chunk.chunkId) in a
        ensures ChunkPath(c.cache, chunk.chunkId) in b
      {
        ChunksStay(c, a, move, chunk.chunkId);
      }
      forall record | ChunksPresent(a, c.cache, record) ensures ChunksPresent(b, c.cache, record) {
      }
    }
  }

  lemma WrittenMarked(c: Context, a: Files, time: int)
    requires PinValid(c.pin) && Allowed(c, a, WriteReady(time))
    ensures RootMarked(Effect(c, a, WriteReady(time)), c.root, c.cache)
  {
    hide Pinned, Describe, ActiveFor;
    var b := Effect(c, a, WriteReady(time));
    forall record | record in c.pin.inputs.providers ensures Pinned(record) && ChunksPresent(b, c.cache, record) {
      assert ManifestStored(a, c.root, record) && ChunksPresent(a, c.cache, record);
    }
  }

  lemma DroppedMarked(c: Context, a: Files)
    ensures RootMarked(Effect(c, a, DropReady), c.root, c.cache)
  {
  }

  lemma SharedKept(cache: string, roots: seq<string>, a: Files, step: Step, b: Files)
    requires Shared(a, cache, roots) && Covers(step, roots) && Takes(cache, a, step, b)
    ensures Shared(b, cache, roots)
  {
    hide CacheSound, RootMarked, Allowed, Effect, PinValid, Referenced;
    match step
    case Synchronize(c, move) =>
      CacheSoundKept(c, a, move, cache);
      forall root | root in roots ensures RootMarked(b, root, cache) {
        RootMarkedKept(c, a, move, root);
      }
    case Remove(listed, id) =>
      RemovalSound(a, cache, id);
      forall root | root in roots ensures RootMarked(b, root, cache) {
        RemovalMarked(a, cache, listed, id, root);
      }
  }

  lemma RemovalSound(files: Files, cache: string, id: Digest)
    requires CacheSound(files, cache)
    ensures CacheSound(files - {ChunkPath(cache, id)}, cache)
  {
    hide ChunkSound;
    var rest := files - {ChunkPath(cache, id)};
    forall other | ChunkPath(cache, other) in rest ensures ChunkSound(rest[ChunkPath(cache, other)], other) {
      assert ChunkPath(cache, other) in files;
    }
  }

  lemma RemovalMarked(files: Files, cache: string, listed: seq<string>, id: Digest, root: string)
    requires RootMarked(files, root, cache) && root in listed && !Referenced(files, listed, id)
    ensures RootMarked(files - {ChunkPath(cache, id)}, root, cache)
  {
    hide Pinned;
    var rest := files - {ChunkPath(cache, id)};
    assert MarkerAt(rest, root) == MarkerAt(files, root);
    if ReadyPath(root) in rest {
      var marker := MarkerAt(files, root).value;
      var i :| 0 <= i < |listed| && listed[i] == root;
      assert !MarksChunk(marker, id);
      forall record | record in MarkedPin(marker).value.inputs.providers ensures ChunksPresent(rest, cache, record) {
        MarkedByRecord(MarkedPin(marker).value, marker.completedAtMs, record, id);
        assert ChunksPresent(files, cache, record);
      }
    }
  }

  lemma MarkedByRecord(pin: Pin, time: int, record: ProviderRecord, id: Digest)
    requires record in pin.inputs.providers && !MarksChunk(MarkerFor(pin, time), id)
    ensures forall chunk | chunk in ChunksOf(record) :: chunk.chunkId != id
  {
    var i :| 0 <= i < |pin.inputs.providers| && pin.inputs.providers[i] == record;
    assert MarkerFor(pin, time).providers[i] == ReadyFor(record);
    assert ReadyFor(record) in MarkerFor(pin, time).providers;
  }

  lemma {:induction false} SharedAlways(
    cache: string, roots: seq<string>, states: seq<Files>, steps: seq<Step>, i: nat)
    requires History(cache, roots, states, steps) && Shared(states[0], cache, roots) && i < |states|
    ensures Shared(states[i], cache, roots)
  {
    hide Shared, Takes, Covers;
    if i > 0 {
      SharedAlways(cache, roots, states, steps, i - 1);
      SharedKept(cache, roots, states[i - 1], steps[i - 1], states[i]);
    }
  }

  /**
   Over any lock-serialized mix of tooling synchronizations and collections that
   list all roots, from an empty cache and unmarked roots: every chunk a root's
   marker names is in the cache, whole.
  */
  lemma MarkedChunksStay(
    cache: string, roots: seq<string>, states: seq<Files>, steps: seq<Step>, i: nat, root: string, id: Digest)
    requires History(cache, roots, states, steps) && states[0] == map[] && i < |states| && root in roots
    requires MarkerAt(states[i], root).Some? && MarksChunk(MarkerAt(states[i], root).value, id)
    ensures ChunkPath(cache, id) in states[i] && ChunkSound(states[i][ChunkPath(cache, id)], id)
  {
    hide Takes, Covers, ChunkSound, Pinned;
    assert Shared(states[0], cache, roots);
    SharedAlways(cache, roots, states, steps, i);
    assert RootMarked(states[i], root, cache);
    var marker := MarkerAt(states[i], root).value;
    var pin := MarkedPin(marker).value;
    var k :| 0 <= k < |marker.providers| && id in marker.providers[k].chunks;
    assert marker.providers[k] == ReadyFor(pin.inputs.providers[k]);
    assert ChunksPresent(states[i], cache, pin.inputs.providers[k]);
  }
}
