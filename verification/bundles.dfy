/**
 The file system the installer works on, as a map from path to content, and what
 makes a directory of it a chunk or an installed bundle
 (`internal/providersync/check.go:62-77`, `assemble.go:93-167`).
*/
module Bundles {
  import opened Wrappers
  import opened ProviderInputs

  /** A file below a chunk or bundle directory; hard links share the inode. */
  datatype Node = Regular(inode: nat, content: Content) | Irregular

  type Tree = map<string, Node>

  datatype Entry = Folder(tree: Tree) | File(content: Content)

  /** A name in a directory: a digest, a word, a word with `.pending` appended, or a staging name. */
  datatype Name =
    | Hex(digest: Digest) | Word(text: string) | Pending(text: string)
    | StagedArchive(id: Digest) | StagedChunk(id: Digest) | StagedBundle(provider: string, bundle: Digest)

  /** `<base>`, `<base>/manifests`, `<base>/.staging` and `<base>/installed/<provider>`. */
  datatype Directory =
    | Base(base: string) | Manifests(base: string) | Staging(base: string) | Installed(base: string, provider: string)

  datatype Path = Path(directory: Directory, name: Name)

  type Files = map<Path, Entry>

  function TreeAt(files: Files, path: Path): Tree {
    if path in files && files[path].Folder? then files[path].tree else map[]
  }

  // ---------------------------------------------------------------------
  // Listed files and what is on disk.
  // ---------------------------------------------------------------------

  /** What Lstat can tell. */
  predicate Looks(tree: Tree, file: ChunkFile) {
    && file.path in tree && tree[file.path].Regular?
    && tree[file.path].content.size == file.sizeBytes
  }

  /** The pinned bytes. */
  predicate Holds(tree: Tree, file: ChunkFile) {
    Looks(tree, file) && OfContent(tree[file.path].content) == file.sha256
  }

  predicate HoldsAll(tree: Tree, files: seq<ChunkFile>) {
    forall i | 0 <= i < |files| :: Holds(tree, files[i])
  }

  /** Exactly the listed files, with the pinned bytes. */
  predicate Exact(tree: Tree, files: seq<ChunkFile>) {
    HoldsAll(tree, files) && tree.Keys == Paths(files)
  }

  /** The file is there, regular and of its listed size, and with `bytes` it has the pinned digest. */
  predicate FileThere(tree: Tree, file: ChunkFile, bytes: bool) {
    && file.path in tree && tree[file.path].Regular?
    && tree[file.path].content.size == file.sizeBytes
    && (bytes ==> OfContent(tree[file.path].content) == file.sha256)
  }

  predicate AllThere(tree: Tree, files: seq<ChunkFile>, bytes: bool) {
    forall file | file in files :: FileThere(tree, file, bytes)
  }

  lemma HeldIsThere(tree: Tree, files: seq<ChunkFile>)
    ensures HoldsAll(tree, files) <==> AllThere(tree, files, true)
    ensures HoldsAll(tree, files) ==> AllThere(tree, files, false)
  {
    forall i | 0 <= i < |files| ensures Holds(tree, files[i]) <==> FileThere(tree, files[i], true) {
    }
    if AllThere(tree, files, true) {
      assert forall i | 0 <= i < |files| :: files[i] in files;
    }
  }

  // ---------------------------------------------------------------------
  // describeBundle.
  // ---------------------------------------------------------------------

  const INTEGRITY := "integrity.json"
  const PROVIDER := "provider.json"

  function ByPath(files: seq<ChunkFile>): map<string, ChunkFile> {
    if files == [] then map[] else ByPath(files[..|files| - 1])[files[|files| - 1].path := files[|files| - 1]]
  }

  lemma {:induction false} ByPathKeys(files: seq<ChunkFile>)
    ensures ByPath(files).Keys == Paths(files)
  {
    if files != [] {
      var front, last := files[..|files| - 1], files[|files| - 1];
      ByPathKeys(front);
      assert files == front + [last];
    }
  }

  lemma {:induction false} ByPathCount(files: seq<ChunkFile>)
    requires DistinctPaths(files)
    ensures |Paths(files)| == |files|
  {
    if files != [] {
      var front, last := files[..|files| - 1], files[|files| - 1];
      ByPathCount(front);
      assert files == front + [last];
      assert last.path !in Paths(front);
      assert Paths(files) == Paths(front) + {last.path};
    }
  }

  lemma {:induction false} ByPathFinds(files: seq<ChunkFile>, i: nat)
    requires DistinctPaths(files) && i < |files|
    ensures files[i].path in ByPath(files) && ByPath(files)[files[i].path] == files[i]
    decreases |files|
  {
    if i < |files| - 1 {
      ByPathFinds(files[..|files| - 1], i);
    }
  }

  predicate IntegrityEntry(file: IntegrityFile, listed: map<string, ChunkFile>) {
    && file.path in listed && listed[file.path].sha256 == file.sha256
    && listed[file.path].sizeBytes == file.sizeBytes
  }

  predicate OnDisk(tree: Tree, file: IntegrityFile) {
    file.path in tree && tree[file.path].Regular? && tree[file.path].content.size == file.sizeBytes
  }

  predicate IntegrityCount(files: seq<IntegrityFile>, listed: map<string, ChunkFile>, record: ProviderRecord) {
    |files| + 1 == record.fileCount && |listed| == |files| + 1
  }

  predicate IntegrityMatches(
    tree: Tree, files: seq<IntegrityFile>, listed: map<string, ChunkFile>, record: ProviderRecord)
  {
    && IntegrityCount(files, listed, record)
    && forall i | 0 <= i < |files| :: IntegrityEntry(files[i], listed) && OnDisk(tree, files[i])
  }

  /** The last listing of the path wins. */
  function ModuleOf(files: seq<IntegrityFile>, path: string): Option<Digest> {
    if files == [] then None
    else if files[|files| - 1].path == path then Some(files[|files| - 1].sha256)
    else ModuleOf(files[..|files| - 1], path)
  }

  function EntryFor(record: ProviderRecord, document: ProviderDocument): ActiveProvider {
    ActiveProvider(
      record.bundleSha256, document.clientModulePath, record.fileCount, record.manifestSha256, record.moduleSha256,
      document.providerApiVersion, record.providerId, record.providerVersion, document.targets,
      record.unpackedSizeBytes)
  }

  predicate DocumentFits(document: ProviderDocument, files: seq<IntegrityFile>, record: ProviderRecord) {
    ModuleOf(files, document.clientModulePath) == Some(record.moduleSha256) && document.targets != []
  }

  function ActiveEntry(tree: Tree, record: ProviderRecord, files: seq<IntegrityFile>): Outcome<ActiveProvider> {
    if PROVIDER !in tree || tree[PROVIDER].Irregular? then Failed(Unavailable)
    else
      var raw := tree[PROVIDER].content;
      if OfContent(raw) != record.manifestSha256 || !raw.decoded.ProviderText? then Failed(BundleInvalid)
      else if !DocumentFits(raw.decoded.document, files, record) then Failed(BundleInvalid)
      else Done(EntryFor(record, raw.decoded.document))
  }

  function Describe(tree: Tree, record: ProviderRecord, listed: map<string, ChunkFile>): Outcome<ActiveProvider> {
    if INTEGRITY !in tree || tree[INTEGRITY].Irregular? then Failed(Unavailable)
    else
      var raw := tree[INTEGRITY].content;
      if OfContent(raw) != record.bundleSha256 then Failed(BundleInvalid)
      else if !raw.decoded.IntegrityText? || raw.decoded.schemaVersion != 1 then Failed(BundleInvalid)
      else if !IntegrityMatches(tree, raw.decoded.files, listed, record) then Failed(BundleInvalid)
      else ActiveEntry(tree, record, raw.decoded.files)
  }

  // ---------------------------------------------------------------------
  // What a described bundle is, field by field.
  // ---------------------------------------------------------------------

  predicate IsRegular(tree: Tree, path: string) {
    path in tree && tree[path].Regular?
  }

  /** Listed by a chunk with the same digest and size, and on disk with that size. */
  predicate ListingAgrees(tree: Tree, file: IntegrityFile, listed: map<string, ChunkFile>) {
    && file.path in listed && listed[file.path].sha256 == file.sha256 && listed[file.path].sizeBytes == file.sizeBytes
    && IsRegular(tree, file.path) && tree[file.path].content.size == file.sizeBytes
  }

  /** The integrity file is the pinned one, of schema 1, and lists all chunk files but one, as they are. */
  predicate IntegritySays(tree: Tree, record: ProviderRecord, listed: map<string, ChunkFile>) {
    && IsRegular(tree, "integrity.json") && OfContent(tree["integrity.json"].content) == record.bundleSha256
    && var decoded := tree["integrity.json"].content.decoded;
       && decoded.IntegrityText? && decoded.schemaVersion == 1
       && record.fileCount == |decoded.files| + 1 == |listed|
       && forall i | 0 <= i < |decoded.files| :: ListingAgrees(tree, decoded.files[i], listed)
  }

  /** The last entry for the path has the digest. */
  ghost predicate LastListed(files: seq<IntegrityFile>, path: string, sha256: Digest, i: nat) {
    && i < |files| && files[i].path == path && files[i].sha256 == sha256
    && forall j | i < j < |files| :: files[j].path != path
  }

  /** The manifest is the pinned one, has targets, and its module is listed with the pinned digest. */
  ghost predicate DocumentSays(tree: Tree, record: ProviderRecord, files: seq<IntegrityFile>) {
    && IsRegular(tree, "provider.json") && OfContent(tree["provider.json"].content) == record.manifestSha256
    && var decoded := tree["provider.json"].content.decoded;
       && decoded.ProviderText? && decoded.document.targets != []
       && exists i: nat :: LastListed(files, decoded.document.clientModulePath, record.moduleSha256, i)
  }

  ghost predicate BundleSays(tree: Tree, record: ProviderRecord, listed: map<string, ChunkFile>) {
    IntegritySays(tree, record, listed) && DocumentSays(tree, record, tree["integrity.json"].content.decoded.files)
  }

  lemma {:induction false} ModuleIsLast(files: seq<IntegrityFile>, path: string, sha256: Digest)
    ensures ModuleOf(files, path) == Some(sha256) <==> exists i: nat :: LastListed(files, path, sha256, i)
  {
    if files != [] {
      var front, last := files[..|files| - 1], files[|files| - 1];
      ModuleIsLast(front, path, sha256);
      if last.path == path {
        assert last.sha256 == sha256 ==> LastListed(files, path, sha256, |files| - 1);
      } else {
        forall i: nat ensures LastListed(files, path, sha256, i) <==> LastListed(front, path, sha256, i) {
          assert forall j | 0 <= j < |front| :: front[j] == files[j];
        }
      }
    }
  }

  /**
   A bundle is described exactly when both of its documents are the pinned ones and
   say what is on disk; a missing document is unavailable, anything else invalid.
  */
  lemma DescribedWhen(tree: Tree, record: ProviderRecord, listed: map<string, ChunkFile>)
    ensures var described := Describe(tree, record, listed);
      && (described.Done? <==> BundleSays(tree, record, listed))
      && (described.Failed? ==>
            described.error ==
            if !IsRegular(tree, "integrity.json") || (IntegritySays(tree, record, listed) && !IsRegular(tree, "provider.json"))
            then Unavailable else BundleInvalid)
  {
    hide LastListed;
    if IntegritySays(tree, record, listed) && IsRegular(tree, "provider.json") && tree["provider.json"].content.decoded.ProviderText? {
      ModuleIsLast(tree["integrity.json"].content.decoded.files,
                   tree["provider.json"].content.decoded.document.clientModulePath, record.moduleSha256);
    }
    if IsRegular(tree, "integrity.json") && tree["integrity.json"].content.decoded.IntegrityText? {
      var files := tree["integrity.json"].content.decoded.files;
      assert forall i | 0 <= i < |files| ::
        ListingAgrees(tree, files[i], listed) <==> IntegrityEntry(files[i], listed) && OnDisk(tree, files[i]);
    }
  }

  method DescribeBundle(tree: Tree, record: ProviderRecord, manifest: ChunkManifest)
    returns (entry: Outcome<ActiveProvider>)
    ensures entry == Describe(tree, record, ByPath(FilesOf(manifest.chunks)))
    ensures entry.Done? <==> BundleSays(tree, record, ByPath(FilesOf(manifest.chunks)))
  {
    DescribedWhen(tree, record, ByPath(FilesOf(manifest.chunks)));
    hide BundleSays, IntegrityMatches;
    if INTEGRITY !in tree || tree[INTEGRITY].Irregular? {
      return Failed(Unavailable);
    }
    var raw := tree[INTEGRITY].content;
    if OfContent(raw) != record.bundleSha256 {
      return Failed(BundleInvalid);
    }
    if !raw.decoded.IntegrityText? || raw.decoded.schemaVersion != 1 {
      return Failed(BundleInvalid);
    }
    var listed := ListChunkFiles(manifest.chunks);
    var ok := MatchIntegrity(tree, raw.decoded.files, listed, record);
    if !ok {
      return Failed(BundleInvalid);
    }
    entry := DescribeEntry(tree, record, raw.decoded.files);
  }

  method ListChunkFiles(chunks: seq<Chunk>) returns (listed: map<string, ChunkFile>)
    ensures listed == ByPath(FilesOf(chunks))
  {
    listed := map[];
    var i := 0;
    while i < |chunks|
      invariant i <= |chunks| && listed == ByPath(FilesOf(chunks[..i]))
    {
      var files, j := chunks[i].files, 0;
      FilesOfStep(chunks, i);
      ghost var before := FilesOf(chunks[..i]);
      assert before + files[..0] == before;
      while j < |files|
        invariant j <= |files| && listed == ByPath(before + files[..j])
      {
        listed := listed[files[j].path := files[j]];
        assert (before + files[..j + 1])[..|before| + j] == before + files[..j];
        j := j + 1;
      }
      assert before + files[..j] == before + files;
      i := i + 1;
    }
    assert chunks[..i] == chunks;
  }

  method MatchIntegrity(
    tree: Tree, files: seq<IntegrityFile>, listed: map<string, ChunkFile>, record: ProviderRecord)
    returns (ok: bool)
    ensures ok == IntegrityMatches(tree, files, listed, record)
  {
    if |files| + 1 != record.fileCount || |listed| != |files| + 1 {
      return false;
    }
    var i := 0;
    while i < |files|
      invariant i <= |files|
      invariant forall k | 0 <= k < i :: IntegrityEntry(files[k], listed) && OnDisk(tree, files[k])
    {
      if !IntegrityEntry(files[i], listed) || !OnDisk(tree, files[i]) {
        return false;
      }
      i := i + 1;
    }
    return true;
  }

  method DescribeEntry(tree: Tree, record: ProviderRecord, files: seq<IntegrityFile>)
    returns (entry: Outcome<ActiveProvider>)
    ensures entry == ActiveEntry(tree, record, files)
  {
    if PROVIDER !in tree || tree[PROVIDER].Irregular? {
      return Failed(Unavailable);
    }
    var raw := tree[PROVIDER].content;
    if OfContent(raw) != record.manifestSha256 || !raw.decoded.ProviderText? {
      return Failed(BundleInvalid);
    }
    var document := raw.decoded.document;
    var found: Option<Digest>, i := None, 0;
    while i < |files|
      invariant i <= |files| && found == ModuleOf(files[..i], document.clientModulePath)
    {
      assert files[..i + 1][..i] == files[..i];
      if files[i].path == document.clientModulePath {
        found := Some(files[i].sha256);
      }
      i := i + 1;
    }
    assert files[..i] == files;
    if found != Some(record.moduleSha256) || |document.targets| == 0 {
      return Failed(BundleInvalid);
    }
    return Done(EntryFor(record, document));
  }

  // ---------------------------------------------------------------------
  // Whether a bundle can be described depends on its pinned bytes alone.
  // ---------------------------------------------------------------------

  /** What the digests pinned for a record say about each other. */
  predicate Describable(record: ProviderRecord, listed: map<string, ChunkFile>) {
    && INTEGRITY in listed && listed[INTEGRITY].sha256 == record.bundleSha256
    && record.bundleSha256.OfContent? && record.bundleSha256.content.decoded.IntegrityText?
    && record.bundleSha256.content.decoded.schemaVersion == 1
    && PROVIDER in listed && listed[PROVIDER].sha256 == record.manifestSha256
    && record.manifestSha256.OfContent? && record.manifestSha256.content.decoded.ProviderText?
    && var files := record.bundleSha256.content.decoded.files;
       && IntegrityCount(files, listed, record)
       && (forall i | 0 <= i < |files| :: IntegrityEntry(files[i], listed))
       && DocumentFits(record.manifestSha256.content.decoded.document, files, record)
  }

  /** The entry a described bundle has in active.json. */
  function EntryOf(record: ProviderRecord): (entry: ActiveProvider)
    ensures entry.providerId == record.providerId && entry.providerVersion == record.providerVersion
    ensures entry.bundleSha256 == record.bundleSha256
    ensures entry.fileCount == record.fileCount && entry.manifestSha256 == record.manifestSha256
    ensures entry.moduleSha256 == record.moduleSha256 && entry.unpackedSizeBytes == record.unpackedSizeBytes
    ensures record.manifestSha256.OfContent? && record.manifestSha256.content.decoded.ProviderText? ==>
      var document := record.manifestSha256.content.decoded.document;
      && entry.clientModulePath == document.clientModulePath && entry.targets == document.targets
      && entry.providerApiVersion == document.providerApiVersion
  {
    EntryFor(record,
             if record.manifestSha256.OfContent? && record.manifestSha256.content.decoded.ProviderText?
             then record.manifestSha256.content.decoded.document else ProviderDocument(0, "", []))
  }

  lemma DescribedEntry(tree: Tree, record: ProviderRecord, listed: map<string, ChunkFile>)
    ensures Describe(tree, record, listed).Done? ==> Describe(tree, record, listed).value == EntryOf(record)
  {
  }

  lemma ListedHeld(tree: Tree, files: seq<ChunkFile>, path: string)
    requires DistinctPaths(files) && HoldsAll(tree, files)
    ensures ByPath(files).Keys == Paths(files)
    ensures path in ByPath(files) ==> ByPath(files)[path].path == path && Holds(tree, ByPath(files)[path])
  {
    ByPathKeys(files);
    if path in ByPath(files) {
      var i :| 0 <= i < |files| && files[i].path == path;
      ByPathFinds(files, i);
    }
  }

  lemma DescribeSucceeds(tree: Tree, record: ProviderRecord, files: seq<ChunkFile>)
    requires DistinctPaths(files) && HoldsAll(tree, files)
    requires Describable(record, ByPath(files))
    ensures Describe(tree, record, ByPath(files)) == Done(EntryOf(record))
  {
    hide HoldsAll, DistinctPaths, ByPath, DocumentFits, IntegrityCount;
    ListedHeld(tree, files, INTEGRITY);
    ListedHeld(tree, files, PROVIDER);
    var entries := record.bundleSha256.content.decoded.files;
    forall i | 0 <= i < |entries| ensures OnDisk(tree, entries[i]) {
      assert IntegrityEntry(entries[i], ByPath(files));
      ListedHeld(tree, files, entries[i].path);
    }
  }

  /** On the pinned bytes describeBundle succeeds when those bytes agree, and only then if nothing else is there. */
  lemma DescribeExactly(tree: Tree, record: ProviderRecord, files: seq<ChunkFile>)
    requires DistinctPaths(files) && HoldsAll(tree, files)
    ensures Describable(record, ByPath(files)) ==> Describe(tree, record, ByPath(files)) == Done(EntryOf(record))
    ensures Exact(tree, files) ==> (Describe(tree, record, ByPath(files)).Done? <==> Describable(record, ByPath(files)))
  {
    if Describable(record, ByPath(files)) {
      DescribeSucceeds(tree, record, files);
    }
    if Exact(tree, files) && Describe(tree, record, ByPath(files)).Done? {
      hide HoldsAll, DistinctPaths, ByPath, DocumentFits, IntegrityCount, IntegrityEntry;
      ListedHeld(tree, files, INTEGRITY);
      ListedHeld(tree, files, PROVIDER);
    }
  }

  // ---------------------------------------------------------------------
  // "Lists exactly the chunk files": true when the list repeats no path.
  // ---------------------------------------------------------------------

  function IntegrityPaths(files: seq<IntegrityFile>): set<string> {
    set f | f in files :: f.path
  }

  predicate NoRepeats(files: seq<IntegrityFile>) {
    |IntegrityPaths(files)| == |files|
  }

  lemma {:induction false} PathCount(files: seq<IntegrityFile>)
    ensures |IntegrityPaths(files)| <= |files|
  {
    if files != [] {
      var front, last := files[..|files| - 1], files[|files| - 1];
      PathCount(front);
      assert files == front + [last];
      assert IntegrityPaths(files) == IntegrityPaths(front) + {last.path};
    }
  }

  /** A matching list covers all chunk files but one exactly when it repeats none. */
  lemma IntegrityListsExactly(
    tree: Tree, files: seq<IntegrityFile>, listed: map<string, ChunkFile>, record: ProviderRecord)
    requires IntegrityMatches(tree, files, listed, record)
    ensures IntegrityPaths(files) <= listed.Keys
    ensures NoRepeats(files) <==> |listed.Keys - IntegrityPaths(files)| == 1
    ensures NoRepeats(files) && INTEGRITY in listed && INTEGRITY !in IntegrityPaths(files)
            ==> IntegrityPaths(files) == listed.Keys - {INTEGRITY}
  {
    PathCount(files);
    var paths := IntegrityPaths(files);
    assert |listed.Keys - paths| == |listed.Keys| - |paths|;
    if NoRepeats(files) && INTEGRITY in listed && INTEGRITY !in paths {
      var others := listed.Keys - {INTEGRITY};
      assert |others - paths| == |others| - |paths|;
    }
  }
}
