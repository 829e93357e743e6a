/**
 Pins small enough to write down: one Provider, one chunk, four files. The list
 in integrity.json is either the right one or names provider.json twice.
*/
module ExamplePins {
  import opened Semver
  import opened Versions
  import opened VersionLaws
  import opened Wrappers
  import opened ProviderInputs
  import opened Bundles
  import opened Moves

  const CLIENT := "client.js"
  const EXTRA := "extra.js"
  const ID := "demo"

  const CLIENT_BYTES := Content(4, 0, Opaque)
  const EXTRA_BYTES := Content(5, 0, Opaque)
  const DOCUMENT_BYTES := Content(2, 0, ProviderText(ProviderDocument(1, CLIENT, [Target("web", "")])))

  function Listing(path: string, bytes: Content): IntegrityFile {
    IntegrityFile(path, bytes.size, OfContent(bytes), "")
  }

  function IntegrityBytes(honest: bool): Content {
    Content(3, 0, IntegrityText(1, [
      Listing(CLIENT, CLIENT_BYTES), if honest then Listing(EXTRA, EXTRA_BYTES) else Listing(PROVIDER, DOCUMENT_BYTES),
      Listing(PROVIDER, DOCUMENT_BYTES)]))
  }

  function FileOf(path: string, bytes: Content): ChunkFile {
    ChunkFile(path, OfContent(bytes), bytes.size)
  }

  function PinnedList(honest: bool): seq<ChunkFile> {
    [FileOf(CLIENT, CLIENT_BYTES), FileOf(EXTRA, EXTRA_BYTES), FileOf(INTEGRITY, IntegrityBytes(honest)),
     FileOf(PROVIDER, DOCUMENT_BYTES)]
  }

  function PinnedTree(honest: bool): Tree {
    map[CLIENT := Regular(0, CLIENT_BYTES), EXTRA := Regular(1, EXTRA_BYTES),
        INTEGRITY := Regular(2, IntegrityBytes(honest)), PROVIDER := Regular(3, DOCUMENT_BYTES)]
  }

  function ChunkOf(honest: bool): Chunk {
    var id := OfIdentity(PinnedList(honest));
    Chunk(ChunkArchive(ID, id), id, 1, id, PinnedList(honest), 14)
  }

  function VersionOf(major: char): string {
    [major] + ".0.0"
  }

  function PinnedManifest(major: char, honest: bool): Content {
    Content(6, 0, ManifestText(ChunkManifest(
      1, ID, VersionOf(major), OfContent(IntegrityBytes(honest)), [ChunkOf(honest)])))
  }

  function RecordOf(major: char, honest: bool): ProviderRecord {
    ProviderRecord(
      OfContent(IntegrityBytes(honest)),
      Asset(Named(ManifestAsset(ID, VersionOf(major))), OfContent(PinnedManifest(major, honest)), 1),
      4, OfContent(DOCUMENT_BYTES), OfContent(CLIENT_BYTES), ID, VersionOf(major), 14)
  }

  /** A pin of the version, built from some source tree. */
  function PinOf(major: char, honest: bool, source: nat): Pin {
    var inputs := Inputs(1, "repository", OfContent(Content(8, source, Opaque)), None, [RecordOf(major, honest)]);
    Pin(inputs, OfContent(Content(7, 0, DescriptorText(inputs))))
  }

  // ---------------------------------------------------------------------
  // They are valid.
  // ---------------------------------------------------------------------

  lemma NamesDiffer()
    ensures |CLIENT| == 9 && |EXTRA| == 8 && |INTEGRITY| == 14 && |PROVIDER| == 13
    ensures CompareStrings(CLIENT, EXTRA) < 0 && CompareStrings(EXTRA, INTEGRITY) < 0
    ensures CompareStrings(INTEGRITY, PROVIDER) < 0
  {
    FirstDiffers(CLIENT, EXTRA);
    FirstDiffers(EXTRA, INTEGRITY);
    FirstDiffers(INTEGRITY, PROVIDER);
  }

  predicate PlainName(text: string) {
    |text| > 2 && forall i | 0 <= i < |text| :: 'a' <= text[i] <= 'z' || text[i] == '.'
  }

  lemma PlainSafe(path: string)
    requires PlainName(path)
    ensures SafeRelative(path)
  {
    assert '/' !in path;
    SplitWhole(path, '/');
  }

  lemma NamesSafe()
    ensures SafeRelative(CLIENT) && SafeRelative(EXTRA) && SafeRelative(INTEGRITY) && SafeRelative(PROVIDER)
  {
    assert PlainName(CLIENT) && PlainName(EXTRA) && PlainName(INTEGRITY) && PlainName(PROVIDER);
    PlainSafe(CLIENT);
    PlainSafe(EXTRA);
    PlainSafe(INTEGRITY);
    PlainSafe(PROVIDER);
  }

  lemma ListValid(honest: bool)
    ensures FilesValid(PinnedList(honest)) && SizeOf(PinnedList(honest)) == 14
  {
    hide SafeRelative, CompareStrings, FilesValid;
    var files := PinnedList(honest);
    NamesDiffer();
    NamesSafe();
    FilesValidEmpty();
    assert files[..0] == [] && files[..4] == files;
    FilesStep(files, 0);
    FilesStep(files, 1);
    FilesStep(files, 2);
    FilesStep(files, 3);
    PathsStep(files, 0);
    PathsStep(files, 1);
    PathsStep(files, 2);
    PathsStep(files, 3);
  }

  lemma ChunkIsValid(honest: bool)
    ensures ChunkValid(ChunkOf(honest), ID)
  {
    hide FilesValid, SizeOf;
    ListValid(honest);
  }

  lemma ManifestIsFor(major: char, honest: bool)
    ensures ManifestFor(PinnedManifest(major, honest), RecordOf(major, honest))
    ensures ChunksOf(RecordOf(major, honest)) == [ChunkOf(honest)]
    ensures BundleFiles(RecordOf(major, honest)) == PinnedList(honest)
  {
    hide FilesValid, ChunkValid;
    ChunkIsValid(honest);
    ListValid(honest);
    ValidDistinct(PinnedList(honest));
    var chunks := [ChunkOf(honest)];
    assert chunks[..0] == [];
    assert FilesOf(chunks) == PinnedList(honest);
    assert UnpackedOf(chunks) == 14;
  }

  predicate AssetChars(text: string) {
    forall i | 0 <= i < |text| :: AssetChar(text[i])
  }

  lemma AssetCharsAppend(a: string, b: string)
    requires AssetChars(a) && AssetChars(b)
    ensures AssetChars(a + b)
  {
  }

  lemma VersionIsValid(major: char)
    requires IsDigit(major)
    ensures SemverPattern(VersionOf(major))
  {
    var version := VersionOf(major);
    CoreText([major]);
    hide CoreValid;
    assert |version| == 5 && version[0] == major && version[1] == '.' && version[2] == '0' && version[3] == '.'
        && version[4] == '0';
  }

  lemma AssetIsValid(major: char)
    requires IsDigit(major)
    ensures AssetPattern(ManifestAsset(ID, VersionOf(major)))
  {
    var version := VersionOf(major);
    assert AssetChars(ID) && AssetChars("-chunks-") && AssetChars(version) && AssetChars(".json");
    AssetCharsAppend(ID, "-chunks-");
    AssetCharsAppend(ID + "-chunks-", version);
    AssetCharsAppend(ID + "-chunks-" + version, ".json");
    assert ManifestAsset(ID, version)[0] == 'd';
  }

  lemma RecordIsValid(major: char, honest: bool)
    requires IsDigit(major)
    ensures RecordValid(RecordOf(major, honest))
  {
    hide SemverPattern, AssetPattern, ManifestAsset;
    VersionIsValid(major);
    AssetIsValid(major);
    assert ProviderIdPattern(ID);
  }

  lemma PinIsValid(major: char, honest: bool, source: nat)
    requires IsDigit(major)
    ensures PinValid(PinOf(major, honest, source)) && Pinned(RecordOf(major, honest))
  {
    hide RecordValid, ManifestValid;
    RecordIsValid(major, honest);
    ManifestIsFor(major, honest);
  }

  lemma FourFilesExact(a: string, b: string, c: string, d: string, x: Content, y: Content, z: Content, w: Content)
    requires a != b && a != c && a != d && b != c && b != d && c != d
    ensures var tree := map[a := Regular(0, x), b := Regular(1, y), c := Regular(2, z), d := Regular(3, w)];
            var files := [FileOf(a, x), FileOf(b, y), FileOf(c, z), FileOf(d, w)];
            Exact(tree, files) && DistinctPaths(files)
  {
    var files := [FileOf(a, x), FileOf(b, y), FileOf(c, z), FileOf(d, w)];
    assert Paths(files) == {a, b, c, d} by {
      assert files[0].path == a && files[1].path == b && files[2].path == c && files[3].path == d;
    }
  }

  lemma TreeExact(honest: bool)
    ensures Exact(PinnedTree(honest), PinnedList(honest)) && DistinctPaths(PinnedList(honest))
  {
    hide Exact;
    NamesDiffer();
    FourFilesExact(CLIENT, EXTRA, INTEGRITY, PROVIDER, CLIENT_BYTES, EXTRA_BYTES, IntegrityBytes(honest), DOCUMENT_BYTES);
  }

  lemma ListedFiles(honest: bool)
    ensures var files, listed := PinnedList(honest), ByPath(PinnedList(honest));
            && |listed| == 4
            && CLIENT in listed && listed[CLIENT] == files[0] && EXTRA in listed && listed[EXTRA] == files[1]
            && INTEGRITY in listed && listed[INTEGRITY] == files[2] && PROVIDER in listed && listed[PROVIDER] == files[3]
    ensures CLIENT != EXTRA && CLIENT != PROVIDER && EXTRA != PROVIDER
  {
    hide ByPath, Exact;
    var files := PinnedList(honest);
    NamesDiffer();
    TreeExact(honest);
    ByPathKeys(files);
    ByPathCount(files);
    ByPathFinds(files, 0);
    ByPathFinds(files, 1);
    ByPathFinds(files, 2);
    ByPathFinds(files, 3);
  }

  lemma FirstOfThree(a: IntegrityFile, b: IntegrityFile, c: IntegrityFile)
    requires b.path != a.path && c.path != a.path
    ensures ModuleOf([a, b, c], a.path) == Some(a.sha256)
  {
    assert [a, b, c][..2] == [a, b] && [a, b][..1] == [a];
    assert ModuleOf([a], a.path) == Some(a.sha256);
    assert ModuleOf([a, b], a.path) == Some(a.sha256);
  }

  lemma RecordDescribable(major: char, honest: bool)
    ensures Describable(RecordOf(major, honest), ByPath(PinnedList(honest)))
  {
    hide ByPath, ModuleOf;
    ListedFiles(honest);
    var entries := IntegrityBytes(honest).decoded.files;
    FirstOfThree(entries[0], entries[1], entries[2]);
  }

  lemma TreeDescribed(major: char, honest: bool)
    ensures Describe(PinnedTree(honest), RecordOf(major, honest), ByPath(PinnedList(honest)))
         == Done(EntryOf(RecordOf(major, honest)))
  {
    hide Describe, Describable, ByPath, EntryOf;
    TreeExact(honest);
    RecordDescribable(major, honest);
    DescribeSucceeds(PinnedTree(honest), RecordOf(major, honest), PinnedList(honest));
  }

  // ---------------------------------------------------------------------
  // "Lists exactly the chunk files" fails for the list with a repeat.
  // ---------------------------------------------------------------------

  lemma ExtraListed()
    ensures EXTRA in ByPath(PinnedList(false))
  {
    ListedFiles(false);
  }

  lemma ExtraNotNamed()
    ensures EXTRA !in IntegrityPaths(IntegrityBytes(false).decoded.files)
  {
    NamesDiffer();
  }

  /**
   A valid pin whose integrity.json names provider.json twice and extra.js not at
   all: describeBundle accepts the pinned bytes.
  */
  lemma RepeatedListingPasses()
    ensures var record, tree := RecordOf('1', false), PinnedTree(false);
            && RecordValid(record) && Pinned(record) && Exact(tree, BundleFiles(record))
            && Describe(tree, record, Listed(record)).Done?
            && EXTRA in Listed(record) && EXTRA !in IntegrityPaths(IntegrityBytes(false).decoded.files)
  {
    hide Describe, ByPath, RecordValid, Pinned, Exact, RecordOf, EntryOf, PinnedList, PinnedTree, IntegrityBytes;
    RecordIsValid('1', false);
    PinIsValid('1', false, 0);
    ManifestIsFor('1', false);
    TreeExact(false);
    TreeDescribed('1', false);
    ExtraListed();
    ExtraNotNamed();
  }
}
