/**
 The atomic file-system steps a synchronization takes, each with the facts that
 hold when it is taken, and what every such step keeps. A run cut off anywhere is
 a prefix of such steps (`internal/providersync/sync.go:146-203`,
 `chunks.go:16-56`, `assemble.go:52-91`, `check.go:92-173`, `gc.go:12-49`).
*/
module Moves {
  import opened Wrappers
  import opened Versions
  import opened ProviderInputs
  import opened Bundles
  import opened Sorting

  /** One Provider root, the chunk cache it uses, the pin and the mode of a run. */
  datatype Context = Context(root: string, cache: string, pin: Pin, production: bool)

  datatype Move =
    | Scratch
    | StoreManifest(base: string, record: ProviderRecord, raw: Content)
    | PublishChunk(record: ProviderRecord, chunk: Chunk, tree: Tree)
    | PublishBundle(record: ProviderRecord, tree: Tree)
    | DropBundle(record: ProviderRecord)
    | WriteActive
    | WriteReady(time: int)
    | DropReady
    | DiscardChunk(record: ProviderRecord, chunk: Chunk, full: bool)
    | DiscardBundle(record: ProviderRecord)
    | Cleanup(path: Path)
    | Collect(id: Digest)

  // ---------------------------------------------------------------------
  // Where things are, and what no staging or pending file touches.
  // ---------------------------------------------------------------------

  predicate Settled(path: Path) {
    !path.directory.Staging? && !path.name.Pending?
  }

  /** What is left of a file system when staging and pending files are ignored. */
  function View(files: Files): Files {
    map path | path in files && Settled(path) :: files[path]
  }

  function ActivePath(root: string): Path {
    Path(Base(root), Word("active.json"))
  }

  function ReadyPath(root: string): Path {
    Path(Base(root), Word("ready.json"))
  }

  function ChunkPath(cache: string, id: Digest): Path {
    Path(Base(cache), Hex(id))
  }

  function BundlePath(root: string, record: ProviderRecord): Path {
    Path(Installed(root, record.providerId), Hex(record.bundleSha256))
  }

  function ManifestPath(base: string, record: ProviderRecord): Path {
    Path(Manifests(base), Word(if record.chunkManifest.asset.Named? then record.chunkManifest.asset.text else ""))
  }

  lemma PathsDiffer()
    ensures forall a, b :: ActivePath(a) != ReadyPath(b)
  {
    assert |"active.json"| != |"ready.json"|;
  }

  /** json.MarshalIndent writes a value one way. */
  function Encoded(decoded: Decoded): Content {
    Content(0, 0, decoded)
  }

  // ---------------------------------------------------------------------
  // What a pin calls for.
  // ---------------------------------------------------------------------

  /** The manifest whose bytes have the pinned digest. */
  function ManifestOf(record: ProviderRecord): ChunkManifest {
    var sha := record.chunkManifest.sha256;
    if sha.OfContent? && sha.content.decoded.ManifestText? then sha.content.decoded.manifest
    else ChunkManifest(0, "", "", record.bundleSha256, [])
  }

  ghost predicate Pinned(record: ProviderRecord) {
    record.chunkManifest.sha256.OfContent? && ManifestFor(record.chunkManifest.sha256.content, record)
  }

  function ChunksOf(record: ProviderRecord): seq<Chunk> {
    ManifestOf(record).chunks
  }

  function BundleFiles(record: ProviderRecord): seq<ChunkFile> {
    FilesOf(ChunksOf(record))
  }

  function Listed(record: ProviderRecord): map<string, ChunkFile> {
    ByPath(BundleFiles(record))
  }

  function ReadyFor(record: ProviderRecord): ReadyProvider {
    ReadyProvider(record.providerId, record.providerVersion, record.bundleSha256,
                  set chunk | chunk in ChunksOf(record) :: chunk.chunkId)
  }

  function ReadyProviders(records: seq<ProviderRecord>): (r: seq<ReadyProvider>)
    ensures |r| == |records| && forall i | 0 <= i < |records| :: r[i] == ReadyFor(records[i])
  {
    seq(|records|, i requires 0 <= i < |records| => ReadyFor(records[i]))
  }

  function MarkerFor(pin: Pin, time: int): ReadyMarker {
    ReadyMarker(1, pin.digest, ReadyProviders(pin.inputs.providers), time)
  }

  function ByProviderId(a: ActiveProvider, b: ActiveProvider): int {
    CompareStrings(a.providerId, b.providerId)
  }

  function SortEntries(entries: seq<ActiveProvider>): seq<ActiveProvider> {
    Sort(ByProviderId, entries)
  }

  function EntriesOf(records: seq<ProviderRecord>): (r: seq<ActiveProvider>)
    ensures |r| == |records| && forall i | 0 <= i < |records| :: r[i] == EntryOf(records[i])
  {
    seq(|records|, i requires 0 <= i < |records| => EntryOf(records[i]))
  }

  /** active.json for a list of entries. */
  function ActiveContent(inputs: Inputs, entries: seq<ActiveProvider>): Content {
    Encoded(ActiveText(ActiveDocument(
      1, SortEntries(entries), inputs.release, if inputs.release.None? then Some(inputs.sourceTreeSha256) else None)))
  }

  function ActiveFor(pin: Pin): Content {
    ActiveContent(pin.inputs, EntriesOf(pin.inputs.providers))
  }

  // ---------------------------------------------------------------------
  // Questions about a state.
  // ---------------------------------------------------------------------

  predicate Stored(files: Files, path: Path, content: Content) {
    path in files && files[path] == File(content)
  }

  ghost predicate ManifestStored(files: Files, base: string, record: ProviderRecord) {
    Pinned(record) && Stored(files, ManifestPath(base, record), record.chunkManifest.sha256.content)
  }

  ghost predicate ChunksPresent(files: Files, cache: string, record: ProviderRecord) {
    forall chunk | chunk in ChunksOf(record) :: ChunkPath(cache, chunk.chunkId) in files
  }

  predicate Described(files: Files, root: string, record: ProviderRecord) {
    && BundlePath(root, record) in files && files[BundlePath(root, record)].Folder?
    && Describe(files[BundlePath(root, record)].tree, record, Listed(record)).Done?
  }

  /** Every file of every chunk is what the cache holds for it, and nothing else is there. */
  ghost predicate Linked(files: Files, cache: string, record: ProviderRecord, tree: Tree) {
    && tree.Keys == Paths(BundleFiles(record))
    && forall chunk, file | chunk in ChunksOf(record) && file in chunk.files :: SameNode(files, cache, chunk, file, tree)
  }

  predicate SameNode(files: Files, cache: string, chunk: Chunk, file: ChunkFile, tree: Tree) {
    var cached := TreeAt(files, ChunkPath(cache, chunk.chunkId));
    && file.path in cached && file.path in tree
    && (cached[file.path].Regular? <==> tree[file.path].Regular?)
    && (tree[file.path].Regular? ==> tree[file.path].content == cached[file.path].content)
  }

  /** Hard link, by inode. */
  predicate SameFile(a: Node, b: Node) {
    a.Regular? && b.Regular? && a.inode == b.inode
  }

  predicate FileMatches(tree: Tree, file: ChunkFile, full: bool, twin: Tree) {
    && Looks(tree, file)
    && (full ==> (file.path in twin && SameFile(tree[file.path], twin[file.path])) || Holds(tree, file))
  }

  predicate CachedMatches(files: Files, cache: string, chunk: Chunk, file: ChunkFile, full: bool) {
    FileMatches(TreeAt(files, ChunkPath(cache, chunk.chunkId)), file, full, map[])
  }

  predicate ChunkDamaged(files: Files, cache: string, chunk: Chunk, full: bool) {
    exists file :: file in chunk.files && !CachedMatches(files, cache, chunk, file, full)
  }

  /** compareVersions against one installed entry. */
  predicate UpgradeAllowed(pinned: ProviderRecord, installed: ActiveProvider) {
    pinned.providerId == installed.providerId ==>
      && CompareVersions(pinned.providerVersion, installed.providerVersion) >= 0
      && (CompareVersions(pinned.providerVersion, installed.providerVersion) == 0 ==>
            pinned.bundleSha256 == installed.bundleSha256)
  }

  predicate ActiveReadable(files: Files, root: string) {
    var path := ActivePath(root);
    path in files ==> files[path].File? && files[path].content.decoded.ActiveText?
  }

  function ActiveEntries(files: Files, root: string): seq<ActiveProvider> {
    var path := ActivePath(root);
    if path in files && files[path].File? && files[path].content.decoded.ActiveText?
    then files[path].content.decoded.active.providers else []
  }

  ghost predicate VersionsAllow(files: Files, root: string, inputs: Inputs) {
    && ActiveReadable(files, root)
    && forall pinned, installed | pinned in inputs.providers && installed in ActiveEntries(files, root) ::
         UpgradeAllowed(pinned, installed)
  }

  /** The marker a reader finds. */
  function MarkerAt(files: Files, root: string): Option<ReadyMarker> {
    var path := ReadyPath(root);
    if path in files && files[path].File? && files[path].content.decoded.MarkerText?
       && files[path].content.decoded.marker.schemaVersion == 1
    then Some(files[path].content.decoded.marker) else None
  }

  predicate MarksChunk(marker: ReadyMarker, id: Digest) {
    exists provider :: provider in marker.providers && id in provider.chunks
  }

  predicate MarksBundle(marker: ReadyMarker, id: string, bundle: Digest) {
    exists provider :: provider in marker.providers && provider.providerId == id && provider.bundleSha256 == bundle
  }

  /** Manifests are kept by position: those of as many pinned records as the marker has Providers. */
  predicate MarksManifest(marker: ReadyMarker, inputs: Inputs, asset: string) {
    exists i :: 0 <= i < |marker.providers| && i < |inputs.providers|
      && inputs.providers[i].chunkManifest.asset == Named(asset)
  }

  /** A settled path cleanup may remove: none the marker names, and chunks only in production. */
  predicate Unreferenced(c: Context, files: Files, marker: ReadyMarker, path: Path) {
    || (path.directory == Manifests(c.root) && path.name.Word? && !MarksManifest(marker, c.pin.inputs, path.name.text))
    || (path.directory == Manifests(c.root) && !path.name.Word?)
    || (path.directory.Installed? && path.directory.base == c.root && path.name.Hex?
        && path in files && files[path].Folder?
        && !MarksBundle(marker, path.directory.provider, path.name.digest))
    || (path.directory == Base(c.cache) && path.name.Hex? && path in files && files[path].Folder?
        && c.production && !MarksChunk(marker, path.name.digest))
  }

  // ---------------------------------------------------------------------
  // The steps.
  // ---------------------------------------------------------------------

  ghost predicate Allowed(c: Context, a: Files, move: Move) {
    var records := c.pin.inputs.providers;
    match move
    case Scratch => true
    case StoreManifest(base, record, raw) =>
      && (base == c.root || base == c.cache) && record in records && Pinned(record)
      && raw == record.chunkManifest.sha256.content
    case PublishChunk(record, chunk, tree) =>
      && record in records && Pinned(record) && chunk in ChunksOf(record)
      && ChunkPath(c.cache, chunk.chunkId) !in a && Exact(tree, chunk.files)
    case PublishBundle(record, tree) =>
      && record in records && Pinned(record) && BundlePath(c.root, record) !in a
      && Linked(a, c.cache, record, tree) && Describe(tree, record, Listed(record)).Done?
    case DropBundle(record) => record in records && !Described(a, c.root, record)
    case WriteActive =>
      && (c.production ==> VersionsAllow(a, c.root, c.pin.inputs))
      && (forall record | record in records :: Pinned(record) && Described(a, c.root, record))
    case WriteReady(time) =>
      && Stored(a, ActivePath(c.root), ActiveFor(c.pin))
      && (forall record | record in records ::
            ManifestStored(a, c.root, record) && ChunksPresent(a, c.cache, record) && Described(a, c.root, record))
    case DropReady => true
    case DiscardChunk(record, chunk, full) =>
      && ReadyPath(c.root) !in a && record in records && Pinned(record) && chunk in ChunksOf(record)
      && ChunkDamaged(a, c.cache, chunk, full)
    case DiscardBundle(record) => ReadyPath(c.root) !in a && record in records
    case Cleanup(path) =>
      MarkerAt(a, c.root).Some? && Unreferenced(c, a, MarkerAt(a, c.root).value, path)
    case Collect(_) => false
  }

  function Effect(c: Context, a: Files, move: Move): Files {
    match move
    case Scratch => a
    case StoreManifest(base, record, raw) => a[ManifestPath(base, record) := File(raw)]
    case PublishChunk(_, chunk, tree) => a[ChunkPath(c.cache, chunk.chunkId) := Folder(tree)]
    case PublishBundle(record, tree) => a[BundlePath(c.root, record) := Folder(tree)]
    case DropBundle(record) => a - {BundlePath(c.root, record)}
    case WriteActive => a[ActivePath(c.root) := File(ActiveFor(c.pin))]
    case WriteReady(time) => a[ReadyPath(c.root) := File(Encoded(MarkerText(MarkerFor(c.pin, time))))]
    case DropReady => a - {ReadyPath(c.root)}
    case DiscardChunk(_, chunk, _) => a - {ChunkPath(c.cache, chunk.chunkId)}
    case DiscardBundle(record) => a - {BundlePath(c.root, record)}
    case Cleanup(path) => a - {path}
    case Collect(id) => a - {ChunkPath(c.cache, id)}
  }

  ghost predicate Taken(c: Context, a: Files, move: Move, b: Files) {
    Allowed(c, a, move) && b == Effect(c, a, move)
  }

  /** A trace of views under allowed moves. */
  ghost predicate Follows(c: Context, trace: seq<Files>, log: seq<Move>) {
    && |trace| == |log| + 1
    && forall i | 0 <= i < |log| :: Taken(c, trace[i], log[i], trace[i + 1])
  }
}
