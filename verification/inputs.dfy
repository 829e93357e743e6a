/**
 What the installer is pinned to, as `internal/providersync/inputs.go` reads it.

 Contents stand for byte strings: their length, what decoding them yields, and
 which of the byte strings of that length and meaning they are. A digest is a
 free constructor over what was hashed, which is SHA-256 taken as injective.
*/
module ProviderInputs {
  import opened Semver
  import opened Wrappers
  import opened Versions
  import opened VersionLaws

  datatype Digest =
    | OfContent(content: Content)
    | OfIdentity(files: seq<ChunkFile>)

  datatype Content = Content(size: nat, salt: nat, decoded: Decoded)

  datatype Decoded =
    | Opaque
    | DescriptorText(inputs: Inputs)
    | ManifestText(manifest: ChunkManifest)
    | IntegrityText(schemaVersion: int, files: seq<IntegrityFile>)
    | ProviderText(document: ProviderDocument)
    | ArchiveText(entries: seq<ArchiveEntry>, ended: bool)
    | ActiveText(active: ActiveDocument)
    | MarkerText(marker: ReadyMarker)

  datatype AssetName = Named(text: string) | ChunkArchive(provider: string, id: Digest)

  datatype Asset = Asset(asset: AssetName, sha256: Digest, sizeBytes: int)

  datatype Release = Release(repository: string, tag: string, commit: string)

  datatype ProviderRecord = ProviderRecord(
    bundleSha256: Digest, chunkManifest: Asset, fileCount: int, manifestSha256: Digest, moduleSha256: Digest,
    providerId: string, providerVersion: string, unpackedSizeBytes: int)

  datatype Inputs = Inputs(
    schemaVersion: int, repository: string, sourceTreeSha256: Digest, release: Option<Release>,
    providers: seq<ProviderRecord>)

  datatype ChunkFile = ChunkFile(path: string, sha256: Digest, sizeBytes: int)

  datatype Chunk = Chunk(
    archive: AssetName, archiveSha256: Digest, archiveSizeBytes: int, chunkId: Digest,
    files: seq<ChunkFile>, unpackedSizeBytes: int)

  datatype ChunkManifest = ChunkManifest(
    schemaVersion: int, providerId: string, providerVersion: string, bundleSha256: Digest, chunks: seq<Chunk>)

  datatype IntegrityFile = IntegrityFile(path: string, sizeBytes: int, sha256: Digest, mediaType: string)

  datatype Target = Target(id: string, checkpoint: string)

  datatype ProviderDocument = ProviderDocument(
    providerApiVersion: int, clientModulePath: string, targets: seq<Target>)

  datatype ArchiveEntry = ArchiveEntry(name: string, regular: bool, content: Content)

  datatype ActiveProvider = ActiveProvider(
    bundleSha256: Digest, clientModulePath: string, fileCount: int, manifestSha256: Digest, moduleSha256: Digest,
    providerApiVersion: int, providerId: string, providerVersion: string, targets: seq<Target>,
    unpackedSizeBytes: int)

  datatype ActiveDocument = ActiveDocument(
    schemaVersion: int, providers: seq<ActiveProvider>, release: Option<Release>, sourceTree: Option<Digest>)

  /** The marker lists chunk digests sorted, so as a set. */
  datatype ReadyProvider = ReadyProvider(
    providerId: string, providerVersion: string, bundleSha256: Digest, chunks: set<Digest>)

  datatype ReadyMarker = ReadyMarker(
    schemaVersion: int, inputsSha256: Digest, providers: seq<ReadyProvider>, completedAtMs: int)

  datatype Error =
    | InputsInvalid | Downgrade | Rebuilt | ChunkInvalid | BundleInvalid | Space | SourceRequired
    | FetchFailed | Unavailable | Panicked

  datatype Outcome<+T> = Done(value: T) | Failed(error: Error)

  // ---------------------------------------------------------------------
  // Files of a manifest.
  // ---------------------------------------------------------------------

  function Paths(files: seq<ChunkFile>): set<string> {
    set f | f in files :: f.path
  }

  ghost predicate DistinctPaths(files: seq<ChunkFile>) {
    forall i, j | 0 <= i < j < |files| :: files[i].path != files[j].path
  }

  /** Every file the chunks carry, in order. */
  function FilesOf(chunks: seq<Chunk>): seq<ChunkFile> {
    if chunks == [] then [] else FilesOf(chunks[..|chunks| - 1]) + chunks[|chunks| - 1].files
  }

  function UnpackedOf(chunks: seq<Chunk>): int {
    if chunks == [] then 0 else UnpackedOf(chunks[..|chunks| - 1]) + chunks[|chunks| - 1].unpackedSizeBytes
  }

  function SizeOf(files: seq<ChunkFile>): int {
    if files == [] then 0 else SizeOf(files[..|files| - 1]) + files[|files| - 1].sizeBytes
  }

  lemma {:induction false} FilesOfPrefix(chunks: seq<Chunk>, i: nat)
    requires i <= |chunks|
    ensures FilesOf(chunks[..i]) <= FilesOf(chunks)
    decreases |chunks| - i
  {
    if i < |chunks| {
      assert chunks[..i + 1][..i] == chunks[..i];
      FilesOfPrefix(chunks, i + 1);
    } else {
      assert chunks[..i] == chunks;
    }
  }

  lemma FilesOfStep(chunks: seq<Chunk>, i: nat)
    requires i < |chunks|
    ensures FilesOf(chunks[..i + 1]) == FilesOf(chunks[..i]) + chunks[i].files
    ensures UnpackedOf(chunks[..i + 1]) == UnpackedOf(chunks[..i]) + chunks[i].unpackedSizeBytes
  {
    assert chunks[..i + 1][..i] == chunks[..i];
  }

  /** A file is listed exactly when some chunk carries it. */
  lemma {:induction false} ListedInChunk(chunks: seq<Chunk>, file: ChunkFile)
    ensures file in FilesOf(chunks) <==> exists chunk :: chunk in chunks && file in chunk.files
  {
    if chunks != [] {
      var front, last := chunks[..|chunks| - 1], chunks[|chunks| - 1];
      ListedInChunk(front, file);
      assert chunks == front + [last];
    }
  }

  lemma CarriedPathsListed(chunks: seq<Chunk>)
    ensures Paths(FilesOf(chunks)) == set chunk, file | chunk in chunks && file in chunk.files :: file.path
  {
    forall chunk, file | chunk in chunks && file in chunk.files ensures file.path in Paths(FilesOf(chunks)) {
      ListedInChunk(chunks, file);
    }
    forall file | file in FilesOf(chunks)
      ensures exists chunk :: chunk in chunks && file in chunk.files
    {
      ListedInChunk(chunks, file);
    }
  }

  // ---------------------------------------------------------------------
  // Descriptor validation.
  // ---------------------------------------------------------------------

  predicate Lower(c: char) {
    'a' <= c <= 'z' || IsDigit(c)
  }

  predicate ProviderIdPattern(text: string) {
    && 1 <= |text| <= 64
    && Lower(text[0]) && Lower(text[|text| - 1])
    && forall i | 0 <= i < |text| :: Lower(text[i]) || text[i] == '-'
  }

  predicate VersionChar(c: char) {
    IdentifierChar(c) || c == '.'
  }

  predicate SemverPattern(text: string) {
    InstallerSemver(text) && forall i | 0 <= i < |text| :: VersionChar(text[i])
  }

  predicate AssetChar(c: char) {
    'a' <= c <= 'z' || 'A' <= c <= 'Z' || IsDigit(c) || c == '.' || c == '_' || c == '-'
  }

  predicate AssetPattern(text: string) {
    && 1 <= |text| <= 255
    && AssetChar(text[0]) && text[0] !in "._-"
    && forall i | 0 <= i < |text| :: AssetChar(text[i])
  }

  function ManifestAsset(id: string, version: string): string {
    id + "-chunks-" + version + ".json"
  }

  predicate RecordValid(record: ProviderRecord) {
    && ProviderIdPattern(record.providerId) && SemverPattern(record.providerVersion)
    && record.fileCount > 0 && record.unpackedSizeBytes > 0
    && record.chunkManifest.asset == Named(ManifestAsset(record.providerId, record.providerVersion))
    && AssetPattern(ManifestAsset(record.providerId, record.providerVersion))
    && record.chunkManifest.sizeBytes > 0
  }

  ghost predicate DistinctProviders(providers: seq<ProviderRecord>) {
    forall i, j | 0 <= i < j < |providers| :: providers[i].providerId != providers[j].providerId
  }

  predicate ReleaseValid(inputs: Inputs) {
    inputs.release.None?
    || (inputs.providers != [] && "https://" <= inputs.release.value.repository
        && inputs.release.value.tag == "v" + inputs.providers[0].providerVersion)
  }

  ghost predicate InputsValid(inputs: Inputs) {
    && inputs.schemaVersion == 1 && inputs.providers != [] && ReleaseValid(inputs)
    && DistinctProviders(inputs.providers)
    && forall record | record in inputs.providers :: RecordValid(record)
  }

  method ValidateInputs(inputs: Inputs) returns (ok: bool)
    ensures ok == InputsValid(inputs)
  {
    hide RecordValid, ReleaseValid;
    if inputs.schemaVersion != 1 || |inputs.providers| == 0 || !ReleaseValid(inputs) {
      return false;
    }
    var seen: set<string> := {};
    var i := 0;
    while i < |inputs.providers|
      invariant i <= |inputs.providers|
      invariant seen == set k | 0 <= k < i :: inputs.providers[k].providerId
      invariant DistinctProviders(inputs.providers[..i])
      invariant forall k | 0 <= k < i :: RecordValid(inputs.providers[k])
    {
      var provider := inputs.providers[i];
      if provider.providerId in seen || !RecordValid(provider) {
        assert provider in inputs.providers;
        return false;
      }
      seen := seen + {provider.providerId};
      i := i + 1;
    }
    assert inputs.providers[..i] == inputs.providers;
    return true;
  }

  /**
   The bytes of a descriptor and its digest: two pins with one digest are one pin.
  */
  datatype Pin = Pin(inputs: Inputs, digest: Digest)

  ghost predicate PinValid(pin: Pin) {
    && pin.digest.OfContent? && pin.digest.content.decoded == DescriptorText(pin.inputs)
    && InputsValid(pin.inputs)
  }

  method LoadInputs(raw: Option<Content>) returns (pin: Outcome<Pin>)
    ensures pin.Done? <==> raw.Some? && raw.value.decoded.DescriptorText? && InputsValid(raw.value.decoded.inputs)
    ensures pin.Done? ==> PinValid(pin.value) && pin.value.digest == OfContent(raw.value)
    ensures pin.Failed? ==> pin.error == (if raw.None? then Unavailable else InputsInvalid)
  {
    if raw.None? {
      return Failed(Unavailable);
    }
    if !raw.value.decoded.DescriptorText? {
      return Failed(InputsInvalid);
    }
    var ok := ValidateInputs(raw.value.decoded.inputs);
    if !ok {
      return Failed(InputsInvalid);
    }
    return Done(Pin(raw.value.decoded.inputs, OfContent(raw.value)));
  }

  lemma PinOfDigest(a: Pin, b: Pin)
    requires PinValid(a) && PinValid(b)
    ensures a == b <==> a.digest == b.digest
  {
  }

  // ---------------------------------------------------------------------
  // Manifest validation.
  // ---------------------------------------------------------------------

  predicate SafeRelative(path: string) {
    && path != "" && path[0] != '/'
    && (forall i | 0 <= i < |path| :: path[i] != '\\' && path[i] != '\0')
    && forall part | part in Split(path, '/') :: part != "" && part != "." && part != ".."
  }

  predicate FileValid(file: ChunkFile) {
    SafeRelative(file.path) && file.sizeBytes >= 0
  }

  /** Valid files, each path after the one before it. */
  predicate FilesValid(files: seq<ChunkFile>) {
    var n := |files|;
    n == 0
    || (FilesValid(files[..n - 1]) && FileValid(files[n - 1])
        && (n > 1 ==> CompareStrings(files[n - 2].path, files[n - 1].path) < 0))
  }

  predicate ChunkValid(chunk: Chunk, provider: string) {
    && chunk.archive == ChunkArchive(provider, chunk.chunkId) && chunk.archiveSizeBytes > 0
    && chunk.files != [] && FilesValid(chunk.files)
    && SizeOf(chunk.files) == chunk.unpackedSizeBytes
    && OfIdentity(chunk.files) == chunk.chunkId
  }

  ghost predicate ManifestValid(manifest: ChunkManifest, record: ProviderRecord) {
    && manifest.schemaVersion == 1 && manifest.providerId == record.providerId
    && manifest.providerVersion == record.providerVersion && manifest.bundleSha256 == record.bundleSha256
    && manifest.chunks != []
    && (forall chunk | chunk in manifest.chunks :: ChunkValid(chunk, record.providerId))
    && DistinctPaths(FilesOf(manifest.chunks))
    && |FilesOf(manifest.chunks)| == record.fileCount
    && UnpackedOf(manifest.chunks) == record.unpackedSizeBytes
  }

  ghost predicate ManifestFor(raw: Content, record: ProviderRecord) {
    raw.decoded.ManifestText? && ManifestValid(raw.decoded.manifest, record)
  }

  lemma {:induction false} FilesOrdered(files: seq<ChunkFile>, i: nat, j: nat)
    requires FilesValid(files) && i < j < |files|
    ensures TextLess(files[i].path, files[j].path)
    decreases |files|
  {
    var n := |files|;
    if j < n - 1 {
      FilesOrdered(files[..n - 1], i, j);
    } else {
      CompareStringsIsTextOrder(files[n - 2].path, files[n - 1].path);
      if i < n - 2 {
        FilesOrdered(files[..n - 1], i, n - 2);
        CharsOrdered();
        LexTransitive(CharLess, files[i].path, files[n - 2].path, files[n - 1].path);
      }
    }
  }

  lemma ValidDistinct(files: seq<ChunkFile>)
    requires FilesValid(files)
    ensures DistinctPaths(files)
  {
    CharsOrdered();
    forall i, j | 0 <= i < j < |files| ensures files[i].path != files[j].path {
      FilesOrdered(files, i, j);
      LexTrichotomy(CharLess, files[i].path, files[j].path);
    }
  }

  lemma {:induction false} FilesValidPrefix(files: seq<ChunkFile>, i: nat)
    requires FilesValid(files) && i <= |files|
    ensures FilesValid(files[..i])
    decreases |files|
  {
    if i < |files| {
      FilesValidPrefix(files[..|files| - 1], i);
      assert files[..|files| - 1][..i] == files[..i];
    } else {
      assert files[..i] == files;
    }
  }

  lemma DistinctAppend(a: seq<ChunkFile>, b: seq<ChunkFile>)
    ensures DistinctPaths(a + b) <==> DistinctPaths(a) && DistinctPaths(b) && Paths(a) !! Paths(b)
    ensures Paths(a + b) == Paths(a) + Paths(b)
  {
    var c := a + b;
    if DistinctPaths(a) && DistinctPaths(b) && Paths(a) !! Paths(b) {
      forall i, j | 0 <= i < j < |c| ensures c[i].path != c[j].path {
        if i < |a| <= j {
          assert c[i].path in Paths(a) && c[j].path in Paths(b);
        }
      }
    }
    if DistinctPaths(c) {
      assert forall i | 0 <= i < |a| :: c[i] == a[i];
      assert forall i | 0 <= i < |b| :: c[|a| + i] == b[i];
      forall i, j | 0 <= i < |a| && 0 <= j < |b| ensures a[i].path != b[j].path {
        assert c[i].path != c[|a| + j].path;
      }
    }
  }

  method ValidateChunk(chunk: Chunk, provider: string, paths: set<string>) returns (ok: bool, seen: set<string>)
    ensures ok == (ChunkValid(chunk, provider) && Paths(chunk.files) !! paths)
    ensures ok ==> seen == paths + Paths(chunk.files)
  {
    hide FilesValid, FileValid, CompareStrings;
    seen := paths;
    if chunk.archive != ChunkArchive(provider, chunk.chunkId) || chunk.archiveSizeBytes <= 0 || |chunk.files| == 0 {
      return false, seen;
    }
    var files := chunk.files;
    var total, i := 0, 0;
    assert files[..0] == [] && FilesValid(files[..0]) by {
      FilesValidEmpty();
    }
    while i < |files|
      invariant i <= |files|
      invariant seen == paths + Paths(files[..i]) && Paths(files[..i]) !! paths
      invariant FilesValid(files[..i]) && total == SizeOf(files[..i])
    {
      var file := files[i];
      PathsStep(files, i);
      FilesStep(files, i);
      if !FileValid(file) || file.path in seen || (i > 0 && CompareStrings(files[i - 1].path, file.path) >= 0) {
        return false, seen;
      }
      seen := seen + {file.path};
      total := total + file.sizeBytes;
      i := i + 1;
    }
    assert files[..i] == files;
    return total == chunk.unpackedSizeBytes && OfIdentity(files) == chunk.chunkId, seen;
  }

  lemma FilesValidEmpty()
    ensures FilesValid([])
  {
  }

  lemma FilesStep(files: seq<ChunkFile>, i: nat)
    requires i < |files|
    ensures FilesValid(files) ==> FilesValid(files[..i + 1])
    ensures FilesValid(files[..i + 1]) <==>
            FilesValid(files[..i]) && FileValid(files[i])
            && (i > 0 ==> CompareStrings(files[i - 1].path, files[i].path) < 0)
    ensures FilesValid(files[..i + 1]) ==> files[i].path !in Paths(files[..i])
  {
    hide FileValid, CompareStrings;
    var next := files[..i + 1];
    assert next[..i] == files[..i];
    if FilesValid(files) {
      FilesValidPrefix(files, i + 1);
    }
    if FilesValid(next) {
      ValidDistinct(next);
      assert forall k | 0 <= k < i :: next[k].path != next[i].path;
    }
  }

  lemma PathsStep(files: seq<ChunkFile>, i: nat)
    requires i < |files|
    ensures Paths(files[..i + 1]) == Paths(files[..i]) + {files[i].path} && files[i].path in Paths(files)
    ensures SizeOf(files[..i + 1]) == SizeOf(files[..i]) + files[i].sizeBytes
  {
    assert files[..i + 1] == files[..i] + [files[i]] && files[..i + 1][..i] == files[..i];
  }

  lemma ChunkDistinct(chunk: Chunk, provider: string)
    requires ChunkValid(chunk, provider)
    ensures DistinctPaths(chunk.files)
  {
    ValidDistinct(chunk.files);
  }

  /** parseManifest accepts a byte string for a record exactly when it decodes to a valid manifest of it. */
  method ParseManifest(raw: Content, record: ProviderRecord) returns (parsed: Option<ChunkManifest>)
    ensures parsed == if ManifestFor(raw, record) then Some(raw.decoded.manifest) else None
  {
    hide ChunkValid;
    if !raw.decoded.ManifestText? {
      return None;
    }
    var manifest := raw.decoded.manifest;
    if manifest.schemaVersion != 1 || manifest.providerId != record.providerId
      || manifest.providerVersion != record.providerVersion || manifest.bundleSha256 != record.bundleSha256
      || |manifest.chunks| == 0
    {
      return None;
    }
    var chunks := manifest.chunks;
    var paths: set<string>, files, unpacked, i := {}, 0, 0, 0;
    while i < |chunks|
      invariant i <= |chunks|
      invariant forall k | 0 <= k < i :: ChunkValid(chunks[k], record.providerId)
      invariant paths == Paths(FilesOf(chunks[..i])) && DistinctPaths(FilesOf(chunks[..i]))
      invariant files == |FilesOf(chunks[..i])| && unpacked == UnpackedOf(chunks[..i])
    {
      FilesOfStep(chunks, i);
      DistinctAppend(FilesOf(chunks[..i]), chunks[i].files);
      var ok, seen := ValidateChunk(chunks[i], record.providerId, paths);
      if !ok {
        RejectedChunk(chunks, i);
        assert chunks[i] in chunks;
        return None;
      }
      ChunkDistinct(chunks[i], record.providerId);
      paths, files, unpacked := seen, files + |chunks[i].files|, unpacked + chunks[i].unpackedSizeBytes;
      i := i + 1;
    }
    assert chunks[..i] == chunks;
    if files != record.fileCount || unpacked != record.unpackedSizeBytes {
      return None;
    }
    return Some(manifest);
  }

  lemma RejectedChunk(chunks: seq<Chunk>, i: nat)
    requires i < |chunks|
    ensures DistinctPaths(FilesOf(chunks)) ==> Paths(chunks[i].files) !! Paths(FilesOf(chunks[..i]))
  {
    FilesOfStep(chunks, i);
    DistinctAppend(FilesOf(chunks[..i]), chunks[i].files);
    FilesOfPrefix(chunks, i + 1);
    var prefix, all := FilesOf(chunks[..i + 1]), FilesOf(chunks);
    assert forall k | 0 <= k < |prefix| :: prefix[k] == all[k];
  }

  // ---------------------------------------------------------------------
  // Manifests of different Providers never share a name.
  // ---------------------------------------------------------------------

  lemma StartsWithDigits(version: string) returns (dot: nat)
    requires SemverPattern(version)
    ensures 0 < dot < |version| && version[dot] == '.'
    ensures forall i | 0 <= i < dot :: IsDigit(version[i])
  {
    var core := Cut(version, '-').0;
    dot := Find(core, '.');
    assert Split(core, '.')[0] == core[..dot];
    assert CanonicalNumber(core[..dot]);
    assert forall i | 0 <= i < dot :: IsDigit(core[..dot][i]) && version[i] == core[..dot][i];
  }

  ghost predicate InfixAt(x: string, m: nat) {
    && m + 8 < |x|
    && x[m] == '-' && x[m + 1] == 'c' && x[m + 2] == 'h' && x[m + 3] == 'u' && x[m + 4] == 'n' && x[m + 5] == 'k'
    && x[m + 6] == 's' && x[m + 7] == '-'
  }

  lemma AssetText(id: string, version: string)
    requires version != ""
    ensures var x, m := ManifestAsset(id, version), |id|;
            && InfixAt(x, m) && |x| == m + 8 + |version| + 5
            && (forall i | 0 <= i < m :: x[i] == id[i])
            && (forall i | 0 <= i < |version| :: x[m + 8 + i] == version[i])
  {
    var x, m := ManifestAsset(id, version), |id|;
    assert x[m..m + 8] == "-chunks-";
    var infix := x[m..m + 8];
    assert infix[0] == x[m] && infix[1] == x[m + 1] && infix[2] == x[m + 2] && infix[3] == x[m + 3]
        && infix[4] == x[m + 4] && infix[5] == x[m + 5] && infix[6] == x[m + 6] && infix[7] == x[m + 7];
  }

  lemma NotLonger(a: ProviderRecord, b: ProviderRecord)
    requires RecordValid(a) && RecordValid(b)
    requires ManifestAsset(a.providerId, a.providerVersion) == ManifestAsset(b.providerId, b.providerVersion)
    ensures |a.providerId| >= |b.providerId|
  {
    hide ManifestAsset, SemverPattern, InfixAt, AssetPattern;
    var x, m, n := ManifestAsset(a.providerId, a.providerVersion), |a.providerId|, |b.providerId|;
    var dot := StartsWithDigits(a.providerVersion);
    var last := StartsWithDigits(b.providerVersion);
    AssetText(a.providerId, a.providerVersion);
    AssetText(b.providerId, b.providerVersion);
    assert x[m + 8 + dot] == '.';
    forall i | m + 8 <= i < m + 8 + dot ensures IsDigit(x[i]) {
      assert x[i] == a.providerVersion[i - m - 8];
    }
    assert forall i | 0 <= i < n :: x[i] == b.providerId[i] && b.providerId[i] != '.';
    InfixOnce(x, m, n, dot);
  }

  /** No dot before n, and digits up to a dot after m: the infix at n is not after the infix at m. */
  lemma InfixOnce(x: string, m: nat, n: nat, dot: nat)
    requires InfixAt(x, m) && InfixAt(x, n)
    requires m + 8 + dot < |x| && x[m + 8 + dot] == '.' && dot > 0
    requires forall i | m + 8 <= i < m + 8 + dot :: IsDigit(x[i])
    requires forall i | 0 <= i < n :: x[i] != '.'
    ensures n <= m
  {
  }

  lemma AssetsDistinct(a: ProviderRecord, b: ProviderRecord)
    requires RecordValid(a) && RecordValid(b)
    ensures a.chunkManifest.asset == b.chunkManifest.asset ==> a.providerId == b.providerId
  {
    if a.chunkManifest.asset == b.chunkManifest.asset {
      NotLonger(a, b);
      NotLonger(b, a);
      var n := |a.providerId|;
      var x := ManifestAsset(a.providerId, a.providerVersion);
      assert a.providerId == x[..n] == b.providerId;
    }
  }
}
