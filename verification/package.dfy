/**
 ZIP-store packages (`internal/storage/package.go`): what is written member by
 member, what the directory read back says, and the intervals handed out. Local
 headers follow section 4.3.7 of the ZIP APPNOTE byte by byte; the central
 directory and the end record are kept as what they decode to and their length
 (sections 4.3.12 to 4.3.16).
*/
module Package {
  import opened Wrappers
  import opened Versions
  import opened Content
  import opened Sorting
  import opened RelativePaths

  type Name = seq<Byte>

  datatype Hash = Sha256(of: seq<Byte>)

  datatype ContentFile = ContentFile(
    logicalKey: Name, storageKey: string, sha256: Hash, sizeBytes: Int64, offset: Int64)

  datatype GameFileMember = GameFileMember(logicalPath: Name, dataOffset: Int64, sizeBytes: Int64, sha256: Hash)

  datatype Error = Invalid | TooLarge | StorageFull

  datatype Outcome<+T> = Done(value: T) | Failed(error: Error)

  const MAXIMUM_MEMBERS := 50_000
  const MAXIMUM_MEMBER_SIZE: Int64 := 8 * 1024 * 1024 * 1024
  const MAXIMUM_CONTENT_SIZE: Int64 := 64 * 1024 * 1024 * 1024
  const OVERHEAD := 2 * 1024 + 256
  const MAXIMUM_PACKAGE_SIZE: Int64 := 64 * 1024 * 1024 * 1024 + 50_000 * (2 * 1024 + 256) + 1024
  const RESERVE: Int64 := 1024 * 1024 * 1024

  // ---------------------------------------------------------------------
  // Content sets.
  // ---------------------------------------------------------------------

  const SLASH: Byte := 47
  const DOT: Byte := 46
  const BACKSLASH: Byte := 92

  predicate Utf8Tail(s: Name, n: nat) {
    |s| > n && forall i | 1 <= i <= n :: 0x80 <= s[i] < 0xC0
  }

  predicate Utf8Valid(s: Name) {
    if s == [] then true
    else if s[0] < 0x80 then Utf8Valid(s[1..])
    else if 0xC2 <= s[0] < 0xE0 then Utf8Tail(s, 1) && Utf8Valid(s[2..])
    else if 0xE0 <= s[0] < 0xF0 then
      Utf8Tail(s, 2) && (s[0] == 0xE0 ==> s[1] >= 0xA0) && (s[0] == 0xED ==> s[1] < 0xA0) && Utf8Valid(s[3..])
    else
      0xF0 <= s[0] < 0xF5 && Utf8Tail(s, 3) && (s[0] == 0xF0 ==> s[1] >= 0x90) && (s[0] == 0xF4 ==> s[1] < 0x90)
      && Utf8Valid(s[4..])
  }

  /** A relative path that names no parent, in its cleaned form, without control characters or backslashes. */
  predicate SafeContentPath(s: Name) {
    && s != [] && s != [DOT] && |s| <= 1024 && Utf8Valid(s)
    && (forall i | 0 <= i < |s| :: s[i] != BACKSLASH && s[i] != 0)
    && s[0] != SLASH && Clean(s, SLASH, DOT) == s && s != [DOT, DOT] && !([DOT, DOT, SLASH] <= s)
    && (forall i | 0 <= i < |s| :: s[i] >= 32 && s[i] != 127)
  }

  predicate FileValid(f: ContentFile) {
    SafeContentPath(f.logicalKey) && 0 <= f.sizeBytes as int <= 8 * 1024 * 1024 * 1024
  }

  function TotalSize(files: seq<ContentFile>): int {
    if files == [] then 0 else TotalSize(files[..|files| - 1]) + files[|files| - 1].sizeBytes as int
  }

  ghost predicate DistinctKeys(files: seq<ContentFile>) {
    forall i, j | 0 <= i < j < |files| :: files[i].logicalKey != files[j].logicalKey
  }

  ghost predicate ContentValid(files: seq<ContentFile>) {
    && 0 < |files| <= 50_000 && DistinctKeys(files)
    && (forall i | 0 <= i < |files| :: FileValid(files[i]))
    && TotalSize(files) <= 64 * 1024 * 1024 * 1024
  }

  lemma {:induction false} TotalGrows(files: seq<ContentFile>, i: nat)
    requires i <= |files| && forall k | 0 <= k < |files| :: files[k].sizeBytes >= 0
    ensures 0 <= TotalSize(files[..i]) <= TotalSize(files)
    decreases |files| - i, i
  {
    if i < |files| {
      TotalGrows(files, i + 1);
      assert files[..i + 1][..i] == files[..i];
      TotalPositive(files[..i]);
    } else {
      assert files[..i] == files;
      TotalPositive(files);
    }
  }

  lemma {:induction false} TotalPositive(files: seq<ContentFile>)
    requires forall k | 0 <= k < |files| :: files[k].sizeBytes >= 0
    ensures 0 <= TotalSize(files)
  {
    if files != [] {
      TotalPositive(files[..|files| - 1]);
    }
  }

  /** The running total is checked after every file and never leaves 64 bits. */
  method ValidateContent(files: seq<ContentFile>) returns (err: Option<Error>)
    ensures err.None? <==> ContentValid(files)
    ensures err.Some? ==> err.value == Invalid || err.value == TooLarge
  {
    hide SafeContentPath;
    if |files| == 0 || |files| > MAXIMUM_MEMBERS {
      return Some(Invalid);
    }
    var seen: set<Name> := {};
    var total: Int64 := 0;
    var i := 0;
    while i < |files|
      invariant i <= |files|
      invariant seen == set k | 0 <= k < i :: files[k].logicalKey
      invariant forall j, k | 0 <= j < k < i :: files[j].logicalKey != files[k].logicalKey
      invariant forall k | 0 <= k < i :: FileValid(files[k])
      invariant total as int == TotalSize(files[..i]) <= MAXIMUM_CONTENT_SIZE as int && total >= 0
    {
      if !SafeContentPath(files[i].logicalKey) || files[i].sizeBytes < 0 || files[i].sizeBytes > MAXIMUM_MEMBER_SIZE
        || files[i].logicalKey in seen
      {
        return Some(Invalid);
      }
      SizeInRange(files[i]);
      assert files[..i + 1][..i] == files[..i];
      total := total + files[i].sizeBytes;
      if total > MAXIMUM_CONTENT_SIZE {
        OverTotal(files, i + 1);
        return Some(TooLarge);
      }
      seen := seen + {files[i].logicalKey};
      i := i + 1;
    }
    assert files[..i] == files;
    return None;
  }

  lemma SizeInRange(f: ContentFile)
    requires FileValid(f)
    ensures 0 <= f.sizeBytes <= MAXIMUM_MEMBER_SIZE
  {
  }

  lemma OverTotal(files: seq<ContentFile>, i: nat)
    requires i <= |files| && TotalSize(files[..i]) > MAXIMUM_CONTENT_SIZE as int
    ensures !ContentValid(files)
  {
    if forall k | 0 <= k < |files| :: FileValid(files[k]) {
      forall k | 0 <= k < |files| ensures files[k].sizeBytes >= 0 {
        SizeInRange(files[k]);
      }
      TotalGrows(files, i);
    }
  }

  // ---------------------------------------------------------------------
  // The layout of an archive.
  // ---------------------------------------------------------------------

  datatype Member = Member(name: Name, data: seq<Byte>)

  /** A central directory entry: stored, not compressed. */
  datatype CentralEntry = CentralEntry(name: Name, size: nat, header: nat)

  datatype Archive = Archive(body: seq<Byte>, directory: seq<CentralEntry>)

  const UINT32_MAX := 0xFFFF_FFFF

  function Zeros(n: nat): seq<Byte> {
    seq(n, _ => 0)
  }

  function Le16(n: nat): seq<Byte>
    requires n < 0x10000
  {
    [n % 256, n / 256]
  }

  /** The extended timestamp of 1 January 1980. */
  const TIMESTAMP: seq<Byte> := [0x55, 0x54, 5, 0, 1, 0x00, 0xA6, 0xCE, 0x12]

  /** Bit 11 of the flags, here of their high byte: the name has a character code page 437 and UTF-8 do not share. */
  function Utf8Flag(name: Name): Byte {
    if exists i :: 0 <= i < |name| && (name[i] < 0x20 || name[i] > 0x7D || name[i] == 0x5C) then 8 else 0
  }

  /**
   Signature, version, flags (bit 3: sizes in the descriptor), method 0, time,
   date, checksum and sizes left out, lengths, name, extra field.
  */
  function LocalHeader(name: Name): seq<Byte>
    requires |name| < 0x10000
  {
    [0x50, 0x4B, 3, 4, 20, 0, 8, Utf8Flag(name), 0, 0, 0, 0, 0x21, 0] + Zeros(12) + Le16(|name|) + Le16(9) + name + TIMESTAMP
  }

  function DescriptorSize(size: nat): nat {
    if size >= UINT32_MAX then 24 else 16
  }

  function CentralSize(entry: CentralEntry): nat {
    46 + |entry.name| + 9 + if entry.size >= UINT32_MAX || entry.header >= UINT32_MAX then 28 else 0
  }

  function DirectorySize(directory: seq<CentralEntry>): nat {
    if directory == [] then 0
    else DirectorySize(directory[..|directory| - 1]) + CentralSize(directory[|directory| - 1])
  }

  function EndSize(archive: Archive): nat {
    22 + if |archive.directory| >= 0xFFFF || |archive.body| >= UINT32_MAX
            || DirectorySize(archive.directory) >= UINT32_MAX then 56 + 20 else 0
  }

  function MemberBytes(m: Member): seq<Byte>
    requires |m.name| < 0x10000
  {
    LocalHeader(m.name) + m.data + Zeros(DescriptorSize(|m.data|))
  }

  predicate Nameable(members: seq<Member>) {
    forall i | 0 <= i < |members| :: |members[i].name| <= 1024
  }

  function Body(members: seq<Member>): seq<Byte>
    requires Nameable(members)
  {
    if members == [] then [] else Body(members[..|members| - 1]) + MemberBytes(members[|members| - 1])
  }

  function DirectoryOf(members: seq<Member>): (r: seq<CentralEntry>)
    requires Nameable(members)
    ensures |r| == |members|
    ensures forall i | 0 <= i < |r| :: r[i] == CentralEntry(members[i].name, |members[i].data|, |Body(members[..i])|)
  {
    seq(|members|, i requires 0 <= i < |members| =>
      CentralEntry(members[i].name, |members[i].data|, |Body(members[..i])|))
  }

  function ArchiveOf(members: seq<Member>): Archive
    requires Nameable(members)
  {
    Archive(Body(members), DirectoryOf(members))
  }

  function ObjectSize(archive: Archive): nat {
    |archive.body| + DirectorySize(archive.directory) + EndSize(archive)
  }

  /** The stored object; what its directory decodes to is `archive.directory`. */
  function ObjectBytes(archive: Archive): (r: seq<Byte>)
    ensures |r| == ObjectSize(archive) && archive.body <= r
  {
    archive.body + Zeros(DirectorySize(archive.directory) + EndSize(archive))
  }

  function Read16(bytes: seq<Byte>, at: nat): nat
    requires at + 1 < |bytes|
  {
    bytes[at] as int + 256 * bytes[at + 1] as int
  }

  /** zip.File.DataOffset: past the local header, whose two lengths are read from the object. */
  function DataOffset(bytes: seq<Byte>, header: nat): Option<nat> {
    if header + 30 > |bytes| || bytes[header..header + 4] != [0x50, 0x4B, 3, 4] then None
    else Some(header + 30 + Read16(bytes, header + 26) + Read16(bytes, header + 28))
  }

  // ---------------------------------------------------------------------
  // Where a member's bytes are.
  // ---------------------------------------------------------------------

  lemma {:induction false} BodyPrefix(members: seq<Member>, i: nat)
    requires Nameable(members) && i <= |members|
    ensures Nameable(members[..i]) && Body(members[..i]) <= Body(members)
    decreases |members| - i
  {
    if i < |members| {
      BodyPrefix(members, i + 1);
      assert members[..i + 1][..i] == members[..i];
    } else {
      assert members[..i] == members;
    }
  }

  function HeaderSize(name: Name): nat {
    39 + |name|
  }

  lemma LocalHeaderFields(name: Name)
    requires |name| <= 1024
    ensures var h := LocalHeader(name);
            && |h| == HeaderSize(name) && h[..4] == [0x50, 0x4B, 3, 4]
            && Read16(h, 26) == |name| && Read16(h, 28) == 9
  {
  }

  /** The directory leads to exactly the member's data. */
  lemma MemberInterval(members: seq<Member>, i: nat, bytes: seq<Byte>)
    requires Nameable(members) && i < |members| && Body(members) <= bytes
    ensures var header := |Body(members[..i])|; var m := members[i];
            && DataOffset(bytes, header) == Some(header + HeaderSize(m.name))
            && header + HeaderSize(m.name) + |m.data| <= |Body(members[..i + 1])| <= |Body(members)|
            && bytes[header + HeaderSize(m.name)..header + HeaderSize(m.name) + |m.data|] == m.data
  {
    hide MemberBytes, DataOffset;
    BodyPrefix(members, i + 1);
    BodyPrefix(members, i);
    assert members[..i + 1][..i] == members[..i] && members[..i + 1][i] == members[i];
    MemberLength(members[i]);
    PlacedMember(Body(members[..i]), members[i], bytes);
  }

  lemma MemberLength(m: Member)
    requires |m.name| <= 1024
    ensures |MemberBytes(m)| == HeaderSize(m.name) + |m.data| + DescriptorSize(|m.data|)
  {
    LocalHeaderFields(m.name);
  }

  lemma PlacedMember(before: seq<Byte>, m: Member, bytes: seq<Byte>)
    requires |m.name| <= 1024 && before + MemberBytes(m) <= bytes
    ensures var header := |before|;
            && DataOffset(bytes, header) == Some(header + HeaderSize(m.name))
            && bytes[header + HeaderSize(m.name)..header + HeaderSize(m.name) + |m.data|] == m.data
  {
    LocalHeaderFields(m.name);
    hide LocalHeader, Zeros;
    var header, h := |before|, LocalHeader(m.name);
    var placed := before + (h + m.data + Zeros(DescriptorSize(|m.data|)));
    forall k | 0 <= k < |h| ensures bytes[header + k] == h[k] {
      assert placed[header + k] == h[k];
    }
    assert bytes[header..header + 4] == h[..4];
    forall k | 0 <= k < |m.data| ensures bytes[header + |h| + k] == m.data[k] {
      assert placed[header + |h| + k] == m.data[k];
    }
  }

  function DataSize(members: seq<Member>): nat {
    if members == [] then 0 else DataSize(members[..|members| - 1]) + |members[|members| - 1].data|
  }

  lemma {:induction false} BodyBound(members: seq<Member>)
    requires Nameable(members)
    ensures |Body(members)| <= DataSize(members) + |members| * (39 + 1024 + 24)
  {
    if members != [] {
      BodyBound(members[..|members| - 1]);
      LocalHeaderFields(members[|members| - 1].name);
    }
  }

  lemma {:induction false} DirectoryBound(directory: seq<CentralEntry>)
    requires forall i | 0 <= i < |directory| :: |directory[i].name| <= 1024
    ensures DirectorySize(directory) <= |directory| * (46 + 1024 + 9 + 28)
  {
    if directory != [] {
      DirectoryBound(directory[..|directory| - 1]);
    }
  }

  /** 2 * 1024 + 256 bytes a member and 1024 for the end are always enough. */
  lemma ObjectBound(members: seq<Member>)
    requires Nameable(members)
    ensures ObjectSize(ArchiveOf(members)) <= DataSize(members) + |members| * OVERHEAD + 1024
  {
    BodyBound(members);
    DirectoryBound(DirectoryOf(members));
  }

  // ---------------------------------------------------------------------
  // Sources.
  // ---------------------------------------------------------------------

  type Store = map<string, seq<Byte>>

  ghost predicate StoreValid(store: Store) {
    forall key | key in store :: |store[key]| <= MAXIMUM_INT64
  }

  ghost predicate Readable(store: Store, f: ContentFile) {
    && f.storageKey in store && 0 <= f.offset && 0 <= f.sizeBytes
    && f.offset as int + f.sizeBytes as int <= |store[f.storageKey]|
  }

  ghost function SourceBytes(store: Store, f: ContentFile): (r: seq<Byte>)
    requires Readable(store, f)
    ensures |r| == f.sizeBytes as int
  {
    store[f.storageKey][f.offset as int..f.offset as int + f.sizeBytes as int]
  }

  /** The source is still what its record says. */
  ghost predicate Unchanged(store: Store, f: ContentFile) {
    Readable(store, f) && Sha256(SourceBytes(store, f)) == f.sha256
  }

  /** The source bytes, unless they cannot be read or have changed. */
  method ReadSource(store: Store, f: ContentFile) returns (data: Outcome<seq<Byte>>)
    requires StoreValid(store)
    ensures data.Done? <==> Unchanged(store, f)
    ensures data.Done? ==> data.value == SourceBytes(store, f)
  {
    if f.storageKey !in store {
      return Failed(Invalid);
    }
    var result := OpenContent(store[f.storageKey], true, f.offset, f.sizeBytes);
    if result.Refused? {
      return Failed(Invalid);
    }
    var buffer := new Byte[32 * 1024];
    var all := ReadAll(result.view, buffer);
    assert result.view.Bytes()[0..] == result.view.Bytes();
    if |all| != f.sizeBytes as int || Sha256(all) != f.sha256 {
      return Failed(Invalid);
    }
    return Done(all);
  }

  ghost predicate AllReadable(store: Store, files: seq<ContentFile>) {
    forall i | 0 <= i < |files| :: Readable(store, files[i])
  }

  ghost predicate AllUnchanged(store: Store, files: seq<ContentFile>)
    ensures AllUnchanged(store, files) ==> AllReadable(store, files)
  {
    forall i | 0 <= i < |files| :: Unchanged(store, files[i])
  }

  ghost function MembersOf(store: Store, files: seq<ContentFile>): (r: seq<Member>)
    requires AllReadable(store, files)
    ensures |r| == |files|
    ensures forall i | 0 <= i < |r| :: r[i] == Member(files[i].logicalKey, SourceBytes(store, files[i]))
  {
    seq(|files|, i requires 0 <= i < |files| => Member(files[i].logicalKey, SourceBytes(store, files[i])))
  }

  lemma {:induction false} DataIsTotal(store: Store, files: seq<ContentFile>)
    requires AllReadable(store, files)
    ensures DataSize(MembersOf(store, files)) == TotalSize(files)
  {
    if files != [] {
      var front := files[..|files| - 1];
      DataIsTotal(store, front);
      assert MembersOf(store, files)[..|files| - 1] == MembersOf(store, front);
    }
  }

  lemma MembersNameable(store: Store, files: seq<ContentFile>)
    requires AllReadable(store, files) && forall i | 0 <= i < |files| :: FileValid(files[i])
    ensures Nameable(MembersOf(store, files))
  {
  }

  /** No valid content set can make an object over the limit, nor a counter over 64 bits. */
  lemma PackageFits(store: Store, files: seq<ContentFile>)
    requires ContentValid(files) && AllReadable(store, files)
    ensures Nameable(MembersOf(store, files))
    ensures ObjectSize(ArchiveOf(MembersOf(store, files))) <= MAXIMUM_PACKAGE_SIZE as int
  {
    hide Body, DirectoryOf, ObjectSize;
    MembersNameable(store, files);
    ObjectBound(MembersOf(store, files));
    DataIsTotal(store, files);
    assert |files| * OVERHEAD <= MAXIMUM_MEMBERS * OVERHEAD;
  }

  lemma PrefixFits(store: Store, files: seq<ContentFile>, i: nat)
    requires ContentValid(files) && i <= |files| && AllReadable(store, files[..i])
    ensures Nameable(MembersOf(store, files[..i]))
    ensures |Body(MembersOf(store, files[..i]))| <= MAXIMUM_PACKAGE_SIZE as int
  {
    hide Body, FileValid, SafeContentPath;
    forall k | 0 <= k < |files| ensures files[k].sizeBytes >= 0 {
      SizeInRange(files[k]);
    }
    TotalGrows(files, i);
    MembersNameable(store, files[..i]);
    DataIsTotal(store, files[..i]);
    BodyBound(MembersOf(store, files[..i]));
    assert i * (39 + 1024 + 24) <= MAXIMUM_MEMBERS * OVERHEAD;
  }

  // ---------------------------------------------------------------------
  // Writing.
  // ---------------------------------------------------------------------

  lemma NextMember(store: Store, files: seq<ContentFile>, i: nat)
    requires i < |files| && AllReadable(store, files[..i]) && Readable(store, files[i])
    requires AllReadable(store, files[..i + 1])
    requires Nameable(MembersOf(store, files[..i])) && Nameable(MembersOf(store, files[..i + 1]))
    ensures var before, m := MembersOf(store, files[..i]), Member(files[i].logicalKey, SourceBytes(store, files[i]));
            && |m.name| <= 1024
            && Body(MembersOf(store, files[..i + 1])) == Body(before) + MemberBytes(m)
            && DirectoryOf(MembersOf(store, files[..i + 1]))
               == DirectoryOf(before) + [CentralEntry(m.name, |m.data|, |Body(before)|)]
  {
    hide MemberBytes, SourceBytes, Readable, Body, DirectoryOf;
    var before, after := MembersOf(store, files[..i]), MembersOf(store, files[..i + 1]);
    assert after[..i] == before && after[i] == Member(files[i].logicalKey, SourceBytes(store, files[i]));
    LastBody(after);
    LastEntry(after);
    assert |after[i].name| <= 1024;
  }

  /** The directory of one member more. */
  lemma LastEntry(members: seq<Member>)
    requires members != [] && Nameable(members) && Nameable(members[..|members| - 1])
    ensures var before, last := members[..|members| - 1], members[|members| - 1];
      DirectoryOf(members) == DirectoryOf(before) + [CentralEntry(last.name, |last.data|, |Body(before)|)]
  {
    var before := members[..|members| - 1];
    forall k | 0 <= k < |members| ensures members[..k] == before[..k] {
    }
  }

  lemma LastBody(members: seq<Member>)
    requires members != [] && Nameable(members) && Nameable(members[..|members| - 1])
    ensures Body(members) == Body(members[..|members| - 1]) + MemberBytes(members[|members| - 1])
  {
  }

  /** The archive and the count of its bytes, unless a source cannot be read or has changed. */
  method WritePackage(store: Store, files: seq<ContentFile>) returns (written: Outcome<Archive>, size: Int64)
    requires StoreValid(store) && ContentValid(files)
    ensures written.Done? <==> AllUnchanged(store, files)
    ensures written.Done? ==>
      && Nameable(MembersOf(store, files)) && written.value == ArchiveOf(MembersOf(store, files))
      && size as int == ObjectSize(written.value) <= MAXIMUM_PACKAGE_SIZE as int
  {
    hide Body, DirectoryOf, ContentValid, ObjectSize, Nameable, MemberBytes;
    var body: seq<Byte>, directory: seq<CentralEntry> := [], [];
    size := 0;
    var i := 0;
    EmptyArchive();
    PrefixFits(store, files, 0);
    while i < |files|
      invariant i <= |files| && AllUnchanged(store, files[..i])
      invariant Nameable(MembersOf(store, files[..i]))
      invariant body == Body(MembersOf(store, files[..i])) && directory == DirectoryOf(MembersOf(store, files[..i]))
      invariant size as int == |body| <= MAXIMUM_PACKAGE_SIZE as int
    {
      var data := ReadSource(store, files[i]);
      if data.Failed? {
        return Failed(data.error), size;
      }
      PrefixFits(store, files, i + 1);
      NextMember(store, files, i);
      var member := Member(files[i].logicalKey, data.value);
      var bytes := MemberBytes(member);
      directory := directory + [CentralEntry(member.name, |member.data|, |body|)];
      body := body + bytes;
      size := size + |bytes| as Int64;
      i := i + 1;
    }
    assert files[..i] == files;
    PackageFits(store, files);
    var archive := Archive(body, directory);
    SizeParts(archive);
    size := size + (DirectorySize(directory) + EndSize(archive)) as Int64;
    if size > MAXIMUM_PACKAGE_SIZE {
      return Failed(TooLarge), size;
    }
    return Done(archive), size;
  }

  lemma EmptyArchive()
    ensures Nameable([]) && Body([]) == [] && DirectoryOf([]) == []
  {
  }

  lemma SizeParts(archive: Archive)
    ensures ObjectSize(archive) == |archive.body| + DirectorySize(archive.directory) + EndSize(archive)
  {
  }

  // ---------------------------------------------------------------------
  // Reading the directory back.
  // ---------------------------------------------------------------------

  ghost predicate MemberVerified(bytes: seq<Byte>, entry: CentralEntry, f: ContentFile, readBack: bool) {
    && DataOffset(bytes, entry.header).Some? && entry.name == f.logicalKey && entry.size == f.sizeBytes as int
    && var offset := DataOffset(bytes, entry.header).value;
       && offset + entry.size <= |bytes|
       && (readBack ==> Sha256(bytes[offset..offset + entry.size]) == f.sha256)
  }

  method VerifyMember(bytes: seq<Byte>, entry: CentralEntry, f: ContentFile, readBack: bool)
    returns (member: Outcome<GameFileMember>)
    requires |bytes| <= MAXIMUM_PACKAGE_SIZE as int
    ensures member.Done? <==> MemberVerified(bytes, entry, f, readBack)
    ensures member.Done? ==>
      && member.value.dataOffset as int == DataOffset(bytes, entry.header).value
      && member.value.logicalPath == f.logicalKey && member.value.sizeBytes == f.sizeBytes
      && member.value.sha256 == f.sha256
  {
    hide DataOffset;
    var offset := DataOffset(bytes, entry.header);
    if offset.None? || entry.name != f.logicalKey || entry.size != f.sizeBytes as int {
      return Failed(Error.Invalid);
    }
    if offset.value > |bytes| || f.sizeBytes as int > |bytes| - offset.value {
      return Failed(Error.Invalid);
    }
    if readBack && Sha256(bytes[offset.value..offset.value + entry.size]) != f.sha256 {
      return Failed(Error.Invalid);
    }
    return Done(GameFileMember(f.logicalKey, offset.value as Int64, f.sizeBytes, f.sha256));
  }

  ghost predicate MembersMatch(
    bytes: seq<Byte>, directory: seq<CentralEntry>, files: seq<ContentFile>, members: seq<GameFileMember>)
  {
    && |members| == |files| == |directory|
    && forall i | 0 <= i < |members| ::
         && Some(members[i].dataOffset as int) == DataOffset(bytes, directory[i].header)
         && members[i].logicalPath == files[i].logicalKey && members[i].sizeBytes == files[i].sizeBytes
         && members[i].sha256 == files[i].sha256
  }

  method VerifyPackage(bytes: seq<Byte>, directory: seq<CentralEntry>, files: seq<ContentFile>, readBack: bool)
    returns (members: Outcome<seq<GameFileMember>>)
    requires |bytes| <= MAXIMUM_PACKAGE_SIZE as int
    ensures members.Done? <==>
      |directory| == |files| && forall i | 0 <= i < |files| :: MemberVerified(bytes, directory[i], files[i], readBack)
    ensures members.Done? ==> MembersMatch(bytes, directory, files, members.value)
  {
    hide MemberVerified, DataOffset;
    if |directory| != |files| {
      return Failed(Error.Invalid);
    }
    var result: seq<GameFileMember>, i := [], 0;
    while i < |files|
      invariant i <= |files| && forall k | 0 <= k < i :: MemberVerified(bytes, directory[k], files[k], readBack)
      invariant MembersMatch(bytes, directory[..i], files[..i], result)
    {
      var member := VerifyMember(bytes, directory[i], files[i], readBack);
      if member.Failed? {
        return Failed(member.error);
      }
      VerifiedOffset(bytes, directory[i], files[i], readBack);
      result := result + [member.value];
      i := i + 1;
    }
    assert directory[..i] == directory && files[..i] == files;
    return Done(result);
  }

  lemma VerifiedOffset(bytes: seq<Byte>, entry: CentralEntry, f: ContentFile, readBack: bool)
    requires MemberVerified(bytes, entry, f, readBack)
    ensures DataOffset(bytes, entry.header).Some?
  {
  }

  /** What was written from unchanged sources always verifies. */
  lemma WrittenVerifies(store: Store, files: seq<ContentFile>, i: nat, bytes: seq<Byte>)
    requires AllUnchanged(store, files)
    requires Nameable(MembersOf(store, files)) && Body(MembersOf(store, files)) <= bytes && i < |files|
    ensures MemberVerified(bytes, DirectoryOf(MembersOf(store, files))[i], files[i], true)
    ensures MemberVerified(bytes, DirectoryOf(MembersOf(store, files))[i], files[i], false)
    ensures var entry := DirectoryOf(MembersOf(store, files))[i];
            var offset := DataOffset(bytes, entry.header).value;
            && offset == entry.header + HeaderSize(entry.name)
            && bytes[offset..offset + entry.size] == SourceBytes(store, files[i])
            && offset + entry.size <= |Body(MembersOf(store, files)[..i + 1])| <= |bytes|
  {
    hide Body, DataOffset;
    MemberInterval(MembersOf(store, files), i, bytes);
  }

  // ---------------------------------------------------------------------
  // Order.
  // ---------------------------------------------------------------------

  function LogicalOrder(a: ContentFile, b: ContentFile): int {
    CompareNumbers(a.logicalKey, b.logicalKey)
  }

  function SortFiles(files: seq<ContentFile>): seq<ContentFile> {
    Sort(LogicalOrder, files)
  }

  ghost predicate Ascending(files: seq<ContentFile>) {
    Ascends(LogicalOrder, files)
  }

  lemma LogicalOrderLaws()
    ensures Consistent(LogicalOrder)
    ensures forall a, b :: LogicalOrder(a, b) == 0 <==> a.logicalKey == b.logicalKey
  {
    hide CompareNumbers;
    forall a: ContentFile, b: ContentFile, c: ContentFile
      ensures LogicalOrder(a, b) < 0 <==> LogicalOrder(b, a) > 0
      ensures LogicalOrder(a, b) == 0 <==> a.logicalKey == b.logicalKey
      ensures LogicalOrder(a, b) < 0 && LogicalOrder(b, c) < 0 ==> LogicalOrder(a, c) < 0
    {
      NumberOrderLaws(a.logicalKey, b.logicalKey, c.logicalKey);
    }
  }

  lemma SortFilesAscends(files: seq<ContentFile>)
    requires DistinctKeys(files)
    ensures Ascending(SortFiles(files))
  {
    hide LogicalOrder, Sort;
    LogicalOrderLaws();
    SortAscends(LogicalOrder, files);
  }

  lemma {:induction false} SortTotal(files: seq<ContentFile>)
    ensures TotalSize(SortFiles(files)) == TotalSize(files) && |SortFiles(files)| == |files|
  {
    hide LogicalOrder;
    if files != [] {
      SortTotal(files[1..]);
      InsertTotal(files[0], SortFiles(files[1..]));
      TotalHead(files[0], files[1..]);
      assert files == [files[0]] + files[1..];
    }
  }

  lemma {:induction false} InsertTotal(f: ContentFile, sorted: seq<ContentFile>)
    ensures TotalSize(Insert(LogicalOrder, f, sorted)) == TotalSize(sorted) + f.sizeBytes as int
    ensures |Insert(LogicalOrder, f, sorted)| == |sorted| + 1
  {
    hide LogicalOrder;
    if sorted == [] || LogicalOrder(f, sorted[0]) <= 0 {
      TotalHead(f, sorted);
    } else {
      InsertTotal(f, sorted[1..]);
      TotalHead(sorted[0], Insert(LogicalOrder, f, sorted[1..]));
      TotalHead(sorted[0], sorted[1..]);
      assert sorted == [sorted[0]] + sorted[1..];
    }
  }

  lemma {:induction false} TotalHead(f: ContentFile, rest: seq<ContentFile>)
    ensures TotalSize([f] + rest) == f.sizeBytes as int + TotalSize(rest)
    decreases |rest|
  {
    if rest != [] {
      TotalHead(f, rest[..|rest| - 1]);
      assert ([f] + rest)[..|rest|] == [f] + rest[..|rest| - 1];
    } else {
      assert [f] + rest == [f] && [f][..0] == [];
    }
  }

  lemma SortedValid(files: seq<ContentFile>)
    requires ContentValid(files)
    ensures ContentValid(SortFiles(files)) && Ascending(SortFiles(files))
    ensures multiset(SortFiles(files)) == multiset(files) && |SortFiles(files)| == |files| > 0
  {
    hide CompareNumbers, FileValid;
    var sorted := SortFiles(files);
    SortFilesAscends(files);
    SortContents(LogicalOrder, files);
    LogicalOrderLaws();
    SortTotal(files);
    forall i | 0 <= i < |sorted| ensures FileValid(sorted[i]) {
      assert sorted[i] in multiset(sorted);
      var k :| 0 <= k < |files| && files[k] == sorted[i];
    }
    forall i, j | 0 <= i < j < |sorted| ensures sorted[i].logicalKey != sorted[j].logicalKey {
      assert LogicalOrder(sorted[i], sorted[j]) < 0;
    }
  }

  // ---------------------------------------------------------------------
  // buildPackage.
  // ---------------------------------------------------------------------

  datatype GameFile = GameFile(bytes: seq<Byte>, sizeBytes: Int64, sha256: Hash, members: seq<GameFileMember>)

  function Interval(file: GameFile, m: GameFileMember): seq<Byte>
    requires 0 <= m.dataOffset && 0 <= m.sizeBytes && m.dataOffset as int + m.sizeBytes as int <= |file.bytes|
  {
    file.bytes[m.dataOffset as int..m.dataOffset as int + m.sizeBytes as int]
  }

  ghost predicate MemberFaithful(store: Store, file: GameFile, m: GameFileMember, f: ContentFile) {
    && m.logicalPath == f.logicalKey && m.sizeBytes == f.sizeBytes && m.sha256 == f.sha256
    && 0 <= m.dataOffset && 0 <= m.sizeBytes && m.dataOffset as int + m.sizeBytes as int <= |file.bytes|
    && Readable(store, f) && Interval(file, m) == SourceBytes(store, f) && Sha256(Interval(file, m)) == m.sha256
  }

  /** Members ascend by path and their intervals lie one after another. */
  ghost predicate MembersApart(members: seq<GameFileMember>) {
    forall i, j | 0 <= i < j < |members| ::
      && CompareNumbers(members[i].logicalPath, members[j].logicalPath) < 0
      && members[i].dataOffset as int + members[i].sizeBytes as int <= members[j].dataOffset as int
  }

  ghost predicate Faithful(store: Store, files: seq<ContentFile>, file: GameFile) {
    && |file.bytes| == file.sizeBytes as int && 0 < file.sizeBytes <= MAXIMUM_PACKAGE_SIZE
    && file.sha256 == Sha256(file.bytes) && |file.members| == |files| == |SortFiles(files)|
    && (forall i | 0 <= i < |files| :: MemberFaithful(store, file, file.members[i], SortFiles(files)[i]))
    && MembersApart(file.members)
  }

  /** Enough room for the package and the reserve. */
  /** Every file of the set is a member. */
  ghost predicate Covered(store: Store, files: seq<ContentFile>, file: GameFile) {
    forall f | f in files :: exists i :: 0 <= i < |file.members| && MemberFaithful(store, file, file.members[i], f)
  }

  lemma FaithfulCovers(store: Store, files: seq<ContentFile>, file: GameFile)
    requires Faithful(store, files, file)
    ensures Covered(store, files, file)
  {
    hide MemberFaithful, MembersApart;
    forall f | f in files
      ensures exists i :: 0 <= i < |file.members| && MemberFaithful(store, file, file.members[i], f)
    {
      SortMember(LogicalOrder, files, f);
      var i :| 0 <= i < |SortFiles(files)| && SortFiles(files)[i] == f;
      assert MemberFaithful(store, file, file.members[i], SortFiles(files)[i]);
    }
  }

  predicate Capacity(files: seq<ContentFile>, free: Int64) {
    free as int >= TotalSize(files) + |files| * OVERHEAD + 1024 + RESERVE as int
  }

  /**
   Succeeds exactly for valid sets of unchanged sources that fit, and then every
   member's interval of the object is its source, byte for byte.
  */
  method BuildPackage(store: Store, files: seq<ContentFile>, free: Int64, temporary: bool)
    returns (file: Outcome<GameFile>)
    requires StoreValid(store)
    ensures file.Done? <==>
      && ContentValid(files) && AllUnchanged(store, files)
      && free as int >= TotalSize(files) + 2304 * |files| + 1024 + 1024 * 1024 * 1024
    ensures file.Done? ==> Faithful(store, files, file.value) && Covered(store, files, file.value)
  {
    hide ContentValid, Unchanged, Body, DirectoryOf, Nameable, DataOffset, MemberVerified, Ascending, MemberFaithful;
    var err := ValidateContent(files);
    if err.Some? {
      return Failed(err.value);
    }
    if !Capacity(files, free) {
      return Failed(StorageFull);
    }
    var sorted := SortFiles(files);
    SortedValid(files);
    SameSources(store, files);
    var written, size := WritePackage(store, sorted);
    if written.Failed? {
      return Failed(written.error);
    }
    var bytes := ObjectBytes(written.value);
    forall i | 0 <= i < |sorted|
      ensures MemberVerified(bytes, written.value.directory[i], sorted[i], !temporary)
    {
      WrittenVerifies(store, sorted, i, bytes);
    }
    var members := VerifyPackage(bytes, written.value.directory, sorted, !temporary);
    if members.Failed? {
      assert false;
    }
    var result := GameFile(bytes, size, Sha256(bytes), members.value);
    BuiltFaithful(store, sorted, result);
    assert SortFiles(files) == sorted;
    FaithfulCovers(store, files, result);
    return Done(result);
  }

  lemma SameSources(store: Store, files: seq<ContentFile>)
    requires multiset(SortFiles(files)) == multiset(files)
    ensures AllUnchanged(store, files) <==> AllUnchanged(store, SortFiles(files))
  {
    hide Unchanged, SortFiles;
    var sorted := SortFiles(files);
    forall i | 0 <= i < |files| ensures files[i] in sorted {
      assert files[i] in multiset(files);
    }
    forall i | 0 <= i < |sorted| ensures sorted[i] in files {
      assert sorted[i] in multiset(sorted);
    }
  }

  lemma BuiltFaithful(store: Store, sorted: seq<ContentFile>, file: GameFile)
    requires sorted != [] && Ascending(sorted) && AllUnchanged(store, sorted)
    requires Nameable(MembersOf(store, sorted)) && file.bytes == ObjectBytes(ArchiveOf(MembersOf(store, sorted)))
    requires MembersMatch(file.bytes, DirectoryOf(MembersOf(store, sorted)), sorted, file.members)
    ensures forall i | 0 <= i < |sorted| :: MemberFaithful(store, file, file.members[i], sorted[i])
    ensures MembersApart(file.members) && |file.bytes| > 0
  {
    hide CompareNumbers, DataOffset, Body, Nameable;
    var members := MembersOf(store, sorted);
    forall i | 0 <= i < |sorted| ensures MemberFaithful(store, file, file.members[i], sorted[i]) {
      WrittenVerifies(store, sorted, i, file.bytes);
    }
    forall i, j | 0 <= i < j < |sorted|
      ensures CompareNumbers(file.members[i].logicalPath, file.members[j].logicalPath) < 0
      ensures file.members[i].dataOffset as int + file.members[i].sizeBytes as int <= file.members[j].dataOffset as int
    {
      WrittenVerifies(store, sorted, i, file.bytes);
      WrittenVerifies(store, sorted, j, file.bytes);
      EarlierEnds(members, i, j);
    }
  }

  lemma EarlierEnds(members: seq<Member>, i: nat, j: nat)
    requires Nameable(members) && i < j <= |members|
    ensures Nameable(members[..i + 1]) && Nameable(members[..j])
    ensures |Body(members[..i + 1])| <= |Body(members[..j])|
  {
    BodyPrefix(members[..j], i + 1);
    assert members[..j][..i + 1] == members[..i + 1];
  }

  // ---------------------------------------------------------------------
  // model.ValidatePackage accepts what was built.
  // ---------------------------------------------------------------------

  predicate MemberValid(m: GameFileMember, objectSize: Int64) {
    && SafeContentPath(m.logicalPath)
    && 0 <= m.dataOffset <= objectSize && 0 <= m.sizeBytes as int <= 8 * 1024 * 1024 * 1024
    && m.dataOffset as int + m.sizeBytes as int <= objectSize as int
  }

  function MembersTotal(members: seq<GameFileMember>): int {
    if members == [] then 0 else MembersTotal(members[..|members| - 1]) + members[|members| - 1].sizeBytes as int
  }

  ghost predicate PackageValid(file: GameFile) {
    && 0 < |file.members| <= 50_000
    && 0 < file.sizeBytes as int <= 64 * 1024 * 1024 * 1024 + 50_000 * (2 * 1024 + 256) + 1024
    && (forall i | 0 <= i < |file.members| :: MemberValid(file.members[i], file.sizeBytes))
    && MembersTotal(file.members) <= 64 * 1024 * 1024 * 1024
  }

  method ValidatePackage(file: GameFile) returns (ok: bool)
    ensures ok <==> PackageValid(file)
  {
    hide SafeContentPath;
    if |file.members| == 0 || |file.members| > MAXIMUM_MEMBERS || file.sizeBytes <= 0
      || file.sizeBytes > MAXIMUM_PACKAGE_SIZE
    {
      return false;
    }
    var total: Int64 := 0;
    var i := 0;
    while i < |file.members|
      invariant i <= |file.members| && forall k | 0 <= k < i :: MemberValid(file.members[k], file.sizeBytes)
      invariant 0 <= total as int == MembersTotal(file.members[..i]) <= MAXIMUM_CONTENT_SIZE as int
    {
      var member := file.members[i];
      if !ValidPackageMember(member, file.sizeBytes) {
        return false;
      }
      assert file.members[..i + 1][..i] == file.members[..i];
      total := total + member.sizeBytes;
      if total > MAXIMUM_CONTENT_SIZE {
        MembersOver(file, i + 1);
        return false;
      }
      i := i + 1;
    }
    assert file.members[..i] == file.members;
    return true;
  }

  /** The source's own comparisons, none of which leaves 64 bits. */
  predicate ValidPackageMember(m: GameFileMember, objectSize: Int64)
    requires objectSize >= 0
    ensures ValidPackageMember(m, objectSize) == MemberValid(m, objectSize)
  {
    && SafeContentPath(m.logicalPath)
    && !(m.dataOffset < 0 || m.dataOffset > objectSize || m.sizeBytes < 0 || m.sizeBytes > MAXIMUM_MEMBER_SIZE
         || m.sizeBytes > objectSize - m.dataOffset)
  }

  lemma {:induction false} MembersGrow(members: seq<GameFileMember>, i: nat)
    requires i <= |members| && forall k | 0 <= k < |members| :: members[k].sizeBytes >= 0
    ensures MembersTotal(members[..i]) <= MembersTotal(members)
    decreases |members| - i
  {
    if i < |members| {
      MembersGrow(members, i + 1);
      assert members[..i + 1][..i] == members[..i];
    } else {
      assert members[..i] == members;
    }
  }

  lemma MembersOver(file: GameFile, i: nat)
    requires i <= |file.members| && MembersTotal(file.members[..i]) > MAXIMUM_CONTENT_SIZE as int
    ensures !PackageValid(file)
  {
    hide SafeContentPath;
    if forall k | 0 <= k < |file.members| :: MemberValid(file.members[k], file.sizeBytes) {
      MembersGrow(file.members, i);
    }
  }

  lemma {:induction false} SameTotal(members: seq<GameFileMember>, files: seq<ContentFile>)
    requires |members| == |files| && forall i | 0 <= i < |files| :: members[i].sizeBytes == files[i].sizeBytes
    ensures MembersTotal(members) == TotalSize(files)
  {
    if files != [] {
      SameTotal(members[..|members| - 1], files[..|files| - 1]);
    }
  }

  /** A package that was built is one the rest of the program accepts. */
  lemma BuiltIsValid(store: Store, files: seq<ContentFile>, file: GameFile)
    requires ContentValid(files) && Faithful(store, files, file)
    ensures PackageValid(file)
  {
    hide SafeContentPath, CompareNumbers, SortFiles, MembersApart;
    var sorted := SortFiles(files);
    SortedValid(files);
    forall i | 0 <= i < |files| ensures MemberValid(file.members[i], file.sizeBytes) {
      assert FileValid(sorted[i]) && MemberFaithful(store, file, file.members[i], sorted[i]);
    }
    SameTotal(file.members, sorted);
  }

  /** Reading a returned member through its view, in any way, reads its source. */
  method OpenMember(store: Store, files: seq<ContentFile>, file: GameFile, i: nat) returns (view: Content)
    requires Faithful(store, files, file) && i < |files|
    ensures fresh(view) && fresh(view.file) && view.Valid() && view.Logical() == 0
    ensures Readable(store, SortFiles(files)[i]) && view.Bytes() == SourceBytes(store, SortFiles(files)[i])
  {
    assert MemberFaithful(store, file, file.members[i], SortFiles(files)[i]);
    var result := OpenContent(file.bytes, true, file.members[i].dataOffset, file.members[i].sizeBytes);
    view := result.view;
  }
}
