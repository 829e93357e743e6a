/**
 The bounded cache of package listings (`internal/persistence/content_cache.go`)
 and the paged read it stands in for (`content.go:41-123`).
*/
module ContentCache {
  import opened Semver
  import opened Versions

  /** Text with its length in bytes. */
  datatype ContentFile = ContentFile(
    logicalKey: string, storageKey: string, sizeBytes: int, sha256: string, offset: int, mediaType: string)

  /** `<file id>:<sha256>`; an id has no colon. */
  datatype CacheKey = CacheKey(id: string, sha256: string)

  const MAXIMUM_BYTES := 32 * 1024 * 1024
  const MAXIMUM_ENTRIES := 16

  function FileWeight(file: ContentFile): nat {
    256 + |file.logicalKey| + |file.mediaType|
  }

  function Weight(files: seq<ContentFile>): nat {
    if files == [] then 0 else Weight(files[..|files| - 1]) + FileWeight(files[|files| - 1])
  }

  /** The characters of some texts. */
  function Characters(texts: seq<string>): nat {
    if texts == [] then 0 else |texts[0]| + Characters(texts[1..])
  }

  function LogicalKeys(files: seq<ContentFile>): (r: seq<string>)
    ensures |r| == |files| && forall i | 0 <= i < |r| :: r[i] == files[i].logicalKey
  {
    seq(|files|, i requires 0 <= i < |files| => files[i].logicalKey)
  }

  function MediaTypes(files: seq<ContentFile>): (r: seq<string>)
    ensures |r| == |files| && forall i | 0 <= i < |r| :: r[i] == files[i].mediaType
  {
    seq(|files|, i requires 0 <= i < |files| => files[i].mediaType)
  }

  lemma {:induction false} CharactersLast(texts: seq<string>, last: string)
    ensures Characters(texts + [last]) == Characters(texts) + |last|
  {
    if texts == [] {
      assert texts + [last] == [last] && [last][1..] == [];
    } else {
      CharactersLast(texts[1..], last);
      assert (texts + [last])[1..] == texts[1..] + [last];
    }
  }

  /** 256 for every file of a listing, and the texts whose lengths vary. */
  lemma {:induction false} WeightExactly(files: seq<ContentFile>)
    ensures Weight(files) == 256 * |files| + Characters(LogicalKeys(files)) + Characters(MediaTypes(files))
  {
    if files != [] {
      var front, last := files[..|files| - 1], files[|files| - 1];
      WeightExactly(front);
      CharactersLast(LogicalKeys(front), last.logicalKey);
      CharactersLast(MediaTypes(front), last.mediaType);
      assert LogicalKeys(files) == LogicalKeys(front) + [last.logicalKey];
      assert MediaTypes(files) == MediaTypes(front) + [last.mediaType];
    }
  }

  method ContentWeight(files: seq<ContentFile>) returns (weight: nat)
    ensures weight == Weight(files)
  {
    weight := 0;
    var i := 0;
    while i < |files|
      invariant i <= |files| && weight == Weight(files[..i])
    {
      assert files[..i + 1][..i] == files[..i];
      weight := weight + FileWeight(files[i]);
      i := i + 1;
    }
    assert files[..i] == files;
  }

  type Entries = map<CacheKey, seq<ContentFile>>

  function OrderWeight(entries: Entries, order: seq<CacheKey>): nat
    requires forall key | key in order :: key in entries
  {
    if order == [] then 0 else Weight(entries[order[0]]) + OrderWeight(entries, order[1..])
  }

  ghost predicate Distinct(order: seq<CacheKey>) {
    forall i, j | 0 <= i < j < |order| :: order[i] != order[j]
  }

  function Keys(order: seq<CacheKey>): set<CacheKey> {
    set key | key in order
  }

  ghost predicate Sound(entries: Entries, order: seq<CacheKey>, bytes: int) {
    && Distinct(order) && entries.Keys == Keys(order)
    && bytes == OrderWeight(entries, order)
    && (forall key | key in entries :: entries[key] != [])
  }

  ghost predicate Bounded(order: seq<CacheKey>, bytes: int) {
    bytes <= 32 * 1024 * 1024 && |order| <= 16
  }

  /** Room for one more entry of the weight. */
  predicate Room(entries: Entries, order: seq<CacheKey>, weight: nat)
    requires forall key | key in order :: key in entries
  {
    order == [] || (OrderWeight(entries, order) + weight <= MAXIMUM_BYTES && |order| < MAXIMUM_ENTRIES)
  }

  /** How many of the oldest entries have to go. */
  function Evictions(entries: Entries, order: seq<CacheKey>, weight: nat): (k: nat)
    requires forall key | key in order :: key in entries
    ensures k <= |order|
  {
    if Room(entries, order, weight) then 0 else 1 + Evictions(entries, order[1..], weight)
  }

  /** The shortest oldest prefix without which there is room. */
  lemma {:induction false} EvictionsLeast(entries: Entries, order: seq<CacheKey>, weight: nat, k: nat)
    requires forall key | key in order :: key in entries
    requires k <= |order|
    ensures k == Evictions(entries, order, weight) <==>
      && (|order| == k || (OrderWeight(entries, order[k..]) + weight <= 32 * 1024 * 1024 && |order| - k + 1 <= 16))
      && forall j | 0 <= j < k :: OrderWeight(entries, order[j..]) + weight > 32 * 1024 * 1024 || |order| - j + 1 > 16
    decreases |order|
  {
    assert order[0..] == order;
    if Room(entries, order, weight) {
    } else if k > 0 {
      EvictionsLeast(entries, order[1..], weight, k - 1);
      assert order[1..][k - 1..] == order[k..];
      forall j | 0 <= j < k - 1 ensures order[1..][j..] == order[j + 1..] {
      }
      assert forall j | 1 <= j < k :: order[j..] == order[1..][j - 1..];
    }
  }

  lemma {:induction false} SameWeights(a: Entries, b: Entries, order: seq<CacheKey>)
    requires forall key | key in order :: key in a && key in b && a[key] == b[key]
    ensures OrderWeight(a, order) == OrderWeight(b, order)
  {
    if order != [] {
      SameWeights(a, b, order[1..]);
    }
  }

  lemma {:induction false} AddedWeight(entries: Entries, order: seq<CacheKey>, key: CacheKey)
    requires forall k | k in order + [key] :: k in entries
    ensures OrderWeight(entries, order + [key]) == OrderWeight(entries, order) + Weight(entries[key])
    decreases |order|
  {
    if order == [] {
      assert order + [key] == [key];
    } else {
      assert (order + [key])[1..] == order[1..] + [key];
      AddedWeight(entries, order[1..], key);
    }
  }

  lemma DropOldest(entries: Entries, order: seq<CacheKey>, bytes: int)
    requires Sound(entries, order, bytes) && order != []
    ensures Sound(entries - {order[0]}, order[1..], bytes - Weight(entries[order[0]]))
  {
    hide Weight;
    var oldest, rest := order[0], order[1..];
    HeadGone(order);
    forall key | key in rest ensures key in entries && key in entries - {oldest} {
      assert key in Keys(order);
    }
    SameWeights(entries, entries - {oldest}, rest);
  }

  lemma HeadGone(order: seq<CacheKey>)
    requires Distinct(order) && order != []
    ensures Keys(order[1..]) == Keys(order) - {order[0]} && Distinct(order[1..])
    ensures forall key | key in order[1..] :: key != order[0]
  {
    forall i | 0 <= i < |order| - 1 ensures order[1..][i] != order[0] {
      assert order[1..][i] == order[i + 1];
    }
    assert order == [order[0]] + order[1..];
  }

  lemma AddNewest(entries: Entries, order: seq<CacheKey>, bytes: int, key: CacheKey, files: seq<ContentFile>)
    requires Sound(entries, order, bytes) && key !in entries && files != []
    ensures Sound(entries[key := files], order + [key], bytes + Weight(files))
  {
    SameWeights(entries, entries[key := files], order);
    AddedWeight(entries[key := files], order, key);
  }

  datatype Snapshot = Snapshot(key: CacheKey, files: seq<ContentFile>)

  /** The entries are the newest accepted listings, as many as there are entries, oldest first. */
  ghost predicate Newest(entries: Entries, order: seq<CacheKey>, accepted: seq<Snapshot>) {
    && |order| <= |accepted|
    && forall i | 0 <= i < |order| ::
         && order[i] in entries
         && accepted[|accepted| - |order| + i] == Snapshot(order[i], entries[order[i]])
  }

  /** The listing is one of the n accepted last. */
  ghost predicate AmongLast(snapshot: Snapshot, accepted: seq<Snapshot>, n: nat) {
    exists i :: 0 <= i < |accepted| && |accepted| - n <= i && accepted[i] == snapshot
  }

  lemma OldestGone(entries: Entries, order: seq<CacheKey>, accepted: seq<Snapshot>)
    requires Newest(entries, order, accepted) && Distinct(order) && order != []
    ensures Newest(entries - {order[0]}, order[1..], accepted)
  {
    HeadGone(order);
    forall i | 0 <= i < |order| - 1
      ensures order[1..][i] in entries - {order[0]}
      ensures accepted[|accepted| - |order| + 1 + i] == Snapshot(order[1..][i], entries[order[1..][i]])
    {
      assert order[1..][i] == order[i + 1] && order[1..][i] in order[1..];
    }
  }

  lemma NewestAdded(
    entries: Entries, order: seq<CacheKey>, accepted: seq<Snapshot>, key: CacheKey, files: seq<ContentFile>)
    requires Newest(entries, order, accepted) && key !in entries
    ensures Newest(entries[key := files], order + [key], accepted + [Snapshot(key, files)])
  {
  }

  class Cache {
    var entries: Entries
    var order: seq<CacheKey>
    var bytes: int
    /** Every listing Put has accepted, oldest first. */
    ghost var accepted: seq<Snapshot>

    constructor ()
      ensures Valid() && entries == map[] && accepted == []
    {
      entries, order, bytes := map[], [], 0;
      accepted := [];
    }

    /**
     The order lists the keys once each, the count is their weight, both are
     bounded, and the entries are the listings accepted last.
    */
    ghost predicate Valid()
      reads this
    {
      Sound(entries, order, bytes) && Bounded(order, bytes) && Newest(entries, order, accepted)
    }

    /**
     A copy of the entry, which is the listing accepted for the key among the last
     ones, as many as there are entries; nil exactly when none of those was for it.
    */
    method Get(key: CacheKey) returns (files: seq<ContentFile>)
      requires Valid()
      ensures files != [] ==> AmongLast(Snapshot(key, files), accepted, |order|)
      ensures files == [] <==> forall other :: !AmongLast(Snapshot(key, other), accepted, |order|)
      ensures files == [] <==> key !in order
      ensures files != [] ==> key in entries && files == entries[key]
    {
      GetFacts(key);
      return if key in entries then entries[key] else [];
    }

    lemma GetFacts(key: CacheKey)
      requires Valid()
      ensures key in entries <==> key in order
      ensures key in entries ==> entries[key] != [] && AmongLast(Snapshot(key, entries[key]), accepted, |order|)
      ensures key !in entries ==> forall other :: !AmongLast(Snapshot(key, other), accepted, |order|)
    {
      assert key in order <==> key in Keys(order);
      if key in entries {
        var i :| 0 <= i < |order| && order[i] == key;
        assert accepted[|accepted| - |order| + i] == Snapshot(order[i], entries[order[i]]);
      } else {
        forall other ensures !AmongLast(Snapshot(key, other), accepted, |order|) {
          forall i | 0 <= i < |accepted| && |accepted| - |order| <= i ensures accepted[i].key != key {
            var k := i - (|accepted| - |order|);
            assert accepted[|accepted| - |order| + k] == Snapshot(order[k], entries[order[k]]);
          }
        }
      }
    }

    /** Keeps the newest entries that fit with the new one; a listing too large or known already changes nothing. */
    method Put(key: CacheKey, files: seq<ContentFile>)
      requires Valid() && files != []
      modifies this
      ensures Valid()
      ensures Weight(files) > 32 * 1024 * 1024 || key in old(entries) ==>
        entries == old(entries) && order == old(order) && bytes == old(bytes) && accepted == old(accepted)
      ensures Weight(files) <= 32 * 1024 * 1024 && key !in old(entries) ==>
        var k := Evictions(old(entries), old(order), Weight(files));
        && order == old(order)[k..] + [key]
        && entries == (old(entries) - Keys(old(order)[..k]))[key := files]
        && key in entries && entries[key] == files && accepted == old(accepted) + [Snapshot(key, files)]
    {
      hide Sound, Room, Newest;
      SoundFacts(entries, order, bytes);
      var weight := ContentWeight(files);
      if weight > MAXIMUM_BYTES || key in entries {
        return;
      }
      MakeRoom(weight);
      AddNewest(entries, order, bytes, key, files);
      NewestAdded(entries, order, accepted, key, files);
      accepted := accepted + [Snapshot(key, files)];
      entries := entries[key := files];
      order := order + [key];
      bytes := bytes + weight;
    }

    /** Drops the oldest entries until the new one fits. */
    method MakeRoom(weight: nat)
      requires Valid() && weight <= MAXIMUM_BYTES
      modifies `entries, `order, `bytes
      ensures Newest(entries, order, accepted)
      ensures forall key | key in old(order) :: key in old(entries)
      ensures var k := Evictions(old(entries), old(order), weight);
        && order == old(order)[k..] && entries == old(entries) - Keys(old(order)[..k])
      ensures Sound(entries, order, bytes) && bytes + weight <= MAXIMUM_BYTES && |order| < MAXIMUM_ENTRIES
    {
      hide Sound, Room, Evictions, Weight, Keys, Newest;
      SoundFacts(entries, order, bytes);
      ghost var dropped := 0;
      NothingDropped(entries, order);
      while |order| > 0 && (bytes + weight > MAXIMUM_BYTES || |order| >= MAXIMUM_ENTRIES)
        invariant dropped <= |old(order)| && order == old(order)[dropped..]
        invariant Sound(entries, order, bytes) && Bounded(order, bytes) && Newest(entries, order, accepted)
        invariant entries == old(entries) - Keys(old(order)[..dropped])
        invariant dropped + Evictions(old(entries), order, weight) == Evictions(old(entries), old(order), weight)
        decreases |order|
      {
        EvictOldest(old(entries), entries, order, bytes, weight);
        DropOldest(entries, order, bytes);
        SoundDistinct(entries, order, bytes);
        OldestGone(entries, order, accepted);
        SoundFacts(entries, order, bytes);
        var oldest := order[0];
        OneMoreDropped(old(entries), old(order), dropped);
        order := order[1..];
        bytes := bytes - Weight(entries[oldest]);
        entries := entries - {oldest};
        dropped := dropped + 1;
      }
      NoMoreEvictions(old(entries), entries, order, bytes, weight);
    }
  }

  lemma NothingDropped(entries: Entries, order: seq<CacheKey>)
    ensures order[0..] == order && entries - Keys(order[..0]) == entries
  {
  }

  lemma OneMoreDropped(entries: Entries, order: seq<CacheKey>, k: nat)
    requires k < |order|
    ensures entries - Keys(order[..k]) - {order[k]} == entries - Keys(order[..k + 1])
    ensures order[k..][1..] == order[k + 1..] && order[k..][0] == order[k]
  {
    assert order[..k + 1] == order[..k] + [order[k]];
  }

  lemma SoundDistinct(entries: Entries, order: seq<CacheKey>, bytes: int)
    requires Sound(entries, order, bytes)
    ensures Distinct(order)
  {
  }

  lemma SoundFacts(entries: Entries, order: seq<CacheKey>, bytes: int)
    requires Sound(entries, order, bytes)
    ensures forall key | key in order :: key in entries
    ensures bytes == OrderWeight(entries, order)
  {
    forall key | key in order ensures key in entries {
      assert key in Keys(order);
    }
  }

  lemma EvictOldest(before: Entries, entries: Entries, order: seq<CacheKey>, bytes: int, weight: nat)
    requires Sound(entries, order, bytes) && order != [] && (forall key | key in entries :: key in before && before[key] == entries[key])
    requires bytes + weight > MAXIMUM_BYTES || |order| >= MAXIMUM_ENTRIES
    ensures forall key | key in order :: key in before && key in entries
    ensures Evictions(before, order, weight) == 1 + Evictions(before, order[1..], weight)
  {
    SoundFacts(entries, order, bytes);
    SameWeights(before, entries, order);
  }

  lemma NoMoreEvictions(before: Entries, entries: Entries, order: seq<CacheKey>, bytes: int, weight: nat)
    requires Sound(entries, order, bytes) && (forall key | key in entries :: key in before && before[key] == entries[key])
    requires order == [] || (bytes + weight <= MAXIMUM_BYTES && |order| < MAXIMUM_ENTRIES)
    ensures forall key | key in order :: key in before
    ensures Evictions(before, order, weight) == 0 && (order == [] ==> bytes == 0)
  {
    SoundFacts(entries, order, bytes);
    SameWeights(before, entries, order);
  }

  // ---------------------------------------------------------------------
  // The paged read.
  // ---------------------------------------------------------------------

  datatype GameFileMember = GameFileMember(
    logicalPath: string, dataOffset: int, sizeBytes: int, sha256: string, mediaType: string)

  datatype GameFile = GameFile(id: string, sha256: string, storageKey: string, sizeBytes: int)

  datatype Answer<+T> = Found(value: T) | Invalid

  const PAGE := 1000
  const MAXIMUM_LISTING := 50_000

  /** The rows of one file in the order of their key, byte by byte. */
  ghost predicate Rows(rows: seq<GameFileMember>) {
    && (forall i | 0 <= i < |rows| :: rows[i].logicalPath != "")
    && forall i, j | 0 <= i < j < |rows| :: TextLess(rows[i].logicalPath, rows[j].logicalPath)
  }

  /** How many rows have a path not after the cursor. */
  function Before(rows: seq<GameFileMember>, after: string): (n: nat)
    ensures n <= |rows|
  {
    if rows == [] || CompareStrings(rows[0].logicalPath, after) > 0 then 0 else 1 + Before(rows[1..], after)
  }

  /** `logical_path > after ORDER BY logical_path LIMIT limit`. */
  function Page(rows: seq<GameFileMember>, after: string, limit: nat): seq<GameFileMember> {
    var from := Before(rows, after);
    if |rows| - from <= limit then rows[from..] else rows[from..from + limit]
  }

  lemma {:induction false} BeforeExactly(rows: seq<GameFileMember>, after: string, n: nat)
    requires Rows(rows) && n <= |rows|
    requires n > 0 ==> rows[n - 1].logicalPath == after
    requires n == 0 ==> after == ""
    ensures Before(rows, after) == n
    decreases |rows|
  {
    if n == 0 {
      if rows != [] {
        CompareStringsIsTextOrder(rows[0].logicalPath, "");
        LexEnds(CharLess, rows[0].logicalPath, "");
      }
    } else {
      CharsOrdered();
      CompareStringsIsTextOrder(rows[0].logicalPath, after);
      LexTrichotomy(CharLess, rows[0].logicalPath, after);
      if n == 1 {
        if |rows| > 1 {
          CompareStringsIsTextOrder(rows[1].logicalPath, after);
          LexTrichotomy(CharLess, rows[1].logicalPath, after);
        }
      } else {
        BeforeExactly(rows[1..], after, n - 1);
      }
    }
  }

  /** The page after a row starts with the next one. */
  lemma PageAfter(rows: seq<GameFileMember>, after: string, n: nat, limit: nat)
    requires Rows(rows) && n <= |rows|
    requires n > 0 ==> rows[n - 1].logicalPath == after
    requires n == 0 ==> after == ""
    ensures Page(rows, after, limit) == if |rows| - n <= limit then rows[n..] else rows[n..n + limit]
  {
    BeforeExactly(rows, after, n);
  }

  predicate ValidMemberInterval(m: GameFileMember, size: int) {
    m.dataOffset >= 0 && m.sizeBytes >= 0 && m.dataOffset <= size && m.sizeBytes <= size - m.dataOffset
  }

  function ContentOf(file: GameFile, m: GameFileMember): ContentFile {
    ContentFile(m.logicalPath, file.storageKey, m.sizeBytes, m.sha256, m.dataOffset, m.mediaType)
  }

  function Listing(file: GameFile, rows: seq<GameFileMember>): (r: seq<ContentFile>)
    ensures |r| == |rows| && forall i | 0 <= i < |r| :: r[i] == ContentOf(file, rows[i])
  {
    seq(|rows|, i requires 0 <= i < |rows| => ContentOf(file, rows[i]))
  }

  predicate ListingValid(file: GameFile, rows: seq<GameFileMember>) {
    && 0 < |rows| <= MAXIMUM_LISTING
    && forall i | 0 <= i < |rows| :: ValidMemberInterval(rows[i], file.sizeBytes)
  }

  /** What a read without any cache returns. */
  /** What the rows of a package say, or that they are refused. */
  ghost predicate ListingSays(file: GameFile, rows: seq<GameFileMember>, result: Answer<seq<ContentFile>>) {
    && (result.Found? <==>
          && 0 < |rows| <= 50_000
          && forall i | 0 <= i < |rows| ::
               0 <= rows[i].dataOffset && 0 <= rows[i].sizeBytes && rows[i].dataOffset + rows[i].sizeBytes <= file.sizeBytes)
    && (result.Found? ==>
          && |result.value| == |rows|
          && forall i | 0 <= i < |rows| ::
               && result.value[i].logicalKey == rows[i].logicalPath && result.value[i].storageKey == file.storageKey
               && result.value[i].sizeBytes == rows[i].sizeBytes && result.value[i].sha256 == rows[i].sha256
               && result.value[i].offset == rows[i].dataOffset && result.value[i].mediaType == rows[i].mediaType)
  }

  lemma ExpandedExactly(file: GameFile, rows: seq<GameFileMember>)
    ensures ListingSays(file, rows, Expanded(file, rows))
  {
  }

  function Expanded(file: GameFile, rows: seq<GameFileMember>): Answer<seq<ContentFile>> {
    if ListingValid(file, rows) then Found(Listing(file, rows)) else Invalid
  }

  /** Stored files by id, with their member rows; both are immutable. */
  datatype Stored = Stored(file: GameFile, rows: seq<GameFileMember>)

  type Database = map<string, Stored>

  ghost predicate Tables(db: Database) {
    forall id | id in db :: db[id].file.id == id && Rows(db[id].rows)
  }

  function KeyOf(file: GameFile): CacheKey {
    CacheKey(file.id, file.sha256)
  }

  /** Every cached listing is the one of the file its key names. */
  ghost predicate Truthful(entries: Entries, db: Database) {
    forall key | key in entries ::
      && key.id in db && KeyOf(db[key.id].file) == key
      && Expanded(db[key.id].file, db[key.id].rows) == Found(entries[key])
  }

  ghost predicate IntervalsValid(file: GameFile, rows: seq<GameFileMember>) {
    forall i | 0 <= i < |rows| :: ValidMemberInterval(rows[i], file.sizeBytes)
  }

  /** One page: its files after those already read, and its last path as the next cursor. */
  method ReadRows(file: GameFile, members: seq<GameFileMember>, before: seq<ContentFile>, cursor: string)
    returns (all: seq<ContentFile>, after: string, ok: bool)
    ensures ok <==> IntervalsValid(file, members)
    ensures ok ==> all == before + Listing(file, members)
    ensures ok ==> after == if members == [] then cursor else members[|members| - 1].logicalPath
  {
    all, after, ok := before, cursor, true;
    var i := 0;
    while i < |members|
      invariant i <= |members| && all == before + Listing(file, members[..i])
      invariant IntervalsValid(file, members[..i])
      invariant after == if i == 0 then cursor else members[i - 1].logicalPath
    {
      if !ValidMemberInterval(members[i], file.sizeBytes) {
        return all, after, false;
      }
      assert Listing(file, members[..i + 1]) == Listing(file, members[..i]) + [ContentOf(file, members[i])];
      all := all + [ContentOf(file, members[i])];
      after := members[i].logicalPath;
      i := i + 1;
    }
    assert members[..i] == members;
  }

  /** Reading the next page extends what is read to the rows up to its end. */
  lemma PageExtends(file: GameFile, rows: seq<GameFileMember>, n: nat, members: seq<GameFileMember>)
    requires n + |members| <= |rows| && members == rows[n..n + |members|]
    ensures Listing(file, rows[..n]) + Listing(file, members) == Listing(file, rows[..n + |members|])
    ensures IntervalsValid(file, rows[..n]) && IntervalsValid(file, members)
       <==> IntervalsValid(file, rows[..n + |members|])
    ensures IntervalsValid(file, rows) ==> IntervalsValid(file, members)
    ensures members != [] ==> rows[n + |members| - 1] == members[|members| - 1]
  {
    hide ValidMemberInterval;
    var next := rows[..n + |members|];
    assert forall k | 0 <= k < n :: next[k] == rows[..n][k];
    forall k | 0 <= k < |members| ensures next[n + k] == members[k] && rows[n + k] == members[k] {
    }
    if IntervalsValid(file, next) {
      forall k | 0 <= k < |members| ensures ValidMemberInterval(members[k], file.sizeBytes) {
        assert members[k] == next[n + k];
      }
    }
    if IntervalsValid(file, rows[..n]) && IntervalsValid(file, members) {
      forall k | 0 <= k < |next| ensures ValidMemberInterval(next[k], file.sizeBytes) {
        assert next[k] == if k < n then rows[..n][k] else members[k - n];
      }
    }
    if IntervalsValid(file, rows) {
      forall k | 0 <= k < |members| ensures ValidMemberInterval(members[k], file.sizeBytes) {
        assert members[k] == rows[n + k];
      }
    }
  }

  /** The first n rows have been read and the cursor is the last of them. */
  ghost predicate ReadUpTo(file: GameFile, rows: seq<GameFileMember>, n: nat, all: seq<ContentFile>, after: string) {
    && n <= |rows| && all == Listing(file, rows[..n]) && IntervalsValid(file, rows[..n])
    && after == if n == 0 then "" else rows[n - 1].logicalPath
  }

  /** The next page is the next rows; reading it reads up to its end. */
  lemma PageRead(
    file: GameFile, rows: seq<GameFileMember>, n: nat, all: seq<ContentFile>, after: string,
    more: seq<ContentFile>, cursor: string)
    requires Rows(rows) && ReadUpTo(file, rows, n, all, after)
    ensures var members := Page(rows, after, PAGE);
            && n + |members| <= |rows| && |members| <= PAGE && (|members| < PAGE ==> n + |members| == |rows|)
            && (IntervalsValid(file, rows) ==> IntervalsValid(file, members))
            && (IntervalsValid(file, members) && more == all + Listing(file, members)
                && cursor == (if members == [] then after else members[|members| - 1].logicalPath)
                ==> ReadUpTo(file, rows, n + |members|, more, cursor))
  {
    hide Rows, ValidMemberInterval, Page, IntervalsValid;
    PageAfter(rows, after, n, PAGE);
    var members := Page(rows, after, PAGE);
    PageExtends(file, rows, n, members);
  }

  /** All members of one file in pages. */
  method ReadPages(file: GameFile, rows: seq<GameFileMember>) returns (result: Answer<seq<ContentFile>>)
    requires Rows(rows)
    ensures result == Expanded(file, rows) && ListingSays(file, rows, result)
  {
    ExpandedExactly(file, rows);
    hide ListingSays;
    hide Rows, Page, IntervalsValid, ValidMemberInterval, ReadUpTo, ListingValid;
    var all: seq<ContentFile>, after, more := [], "", true;
    ghost var n: nat := 0;
    NothingRead(file, rows);
    while more
      invariant ReadUpTo(file, rows, n, all, after) && n <= |rows| && n <= MAXIMUM_LISTING
      invariant !more ==> n == |rows|
      decreases |rows| - n, more
    {
      var members := Page(rows, after, PAGE);
      var next, cursor, ok := ReadRows(file, members, all, after);
      PageRead(file, rows, n, all, after, next, cursor);
      if !ok {
        ListingNeeds(file, rows);
        return Invalid;
      }
      all, after := next, cursor;
      n := n + |members|;
      ReadLength(file, rows, n, all, after);
      if |all| > MAXIMUM_LISTING {
        ListingNeeds(file, rows);
        return Invalid;
      }
      more := |members| >= PAGE;
    }
    ReadLength(file, rows, n, all, after);
    ListingNeeds(file, rows);
    return if |all| == 0 then Invalid else Found(all);
  }

  lemma ReadLength(file: GameFile, rows: seq<GameFileMember>, n: nat, all: seq<ContentFile>, after: string)
    requires ReadUpTo(file, rows, n, all, after)
    ensures |all| == n <= |rows|
    ensures n == |rows| ==> all == Listing(file, rows) && IntervalsValid(file, rows)
  {
    if n == |rows| {
      assert rows[..n] == rows;
    }
  }

  lemma NothingRead(file: GameFile, rows: seq<GameFileMember>)
    ensures ReadUpTo(file, rows, 0, [], "")
  {
    assert rows[..0] == [];
  }

  lemma ListingNeeds(file: GameFile, rows: seq<GameFileMember>)
    ensures ListingValid(file, rows) <==> 0 < |rows| <= MAXIMUM_LISTING && IntervalsValid(file, rows)
  {
  }

  /** The same listing whatever the cache holds, and a cache as truthful as before. */
  method PackageContent(db: Database, cache: Cache, file: GameFile) returns (result: Answer<seq<ContentFile>>)
    requires Tables(db) && file.id in db && db[file.id].file == file
    requires cache.Valid() && Truthful(cache.entries, db)
    modifies cache
    ensures cache.Valid() && Truthful(cache.entries, db)
    ensures result == Expanded(file, db[file.id].rows) && ListingSays(file, db[file.id].rows, result)
  {
    ExpandedExactly(file, db[file.id].rows);
    hide ListingSays;
    hide Sound, Rows, ListingValid;
    var cached := cache.Get(KeyOf(file));
    if cached != [] {
      return Found(cached);
    }
    result := ReadPages(file, db[file.id].rows);
    if result.Found? {
      ListedSomething(file, db[file.id].rows);
      cache.Put(KeyOf(file), result.value);
    }
  }

  lemma ListedSomething(file: GameFile, rows: seq<GameFileMember>)
    ensures Expanded(file, rows).Found? ==> Expanded(file, rows).value != []
  {
  }

  /** What is returned ascends strictly by path and is complete. */
  lemma ListingSorted(file: GameFile, rows: seq<GameFileMember>)
    requires Rows(rows) && Expanded(file, rows).Found?
    ensures var files := Expanded(file, rows).value;
            && |files| == |rows|
            && (forall i, j | 0 <= i < j < |files| :: TextLess(files[i].logicalKey, files[j].logicalKey))
            && forall m | m in rows :: ContentOf(file, m) in files
  {
    forall m | m in rows ensures ContentOf(file, m) in Listing(file, rows) {
      var i :| 0 <= i < |rows| && rows[i] == m;
      assert Listing(file, rows)[i] == ContentOf(file, m);
    }
  }
}
