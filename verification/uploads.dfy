/**
 Resumable uploads (`internal/storage/uploads.go`): what is held of every
 declared file after any sequence of chunks, accepted or refused, and that the
 declared tree is one the service lets through
 (`internal/service/scans/upload.go:336-363`).
*/
module Uploads {
  import opened Wrappers
  import opened Content

  /** A relative path as its components. */
  type Path = seq<string>

  datatype Declared = Declared(path: Path, size: nat)

  /** A request body: what reading it gives and whether it then fails. */
  datatype Body = Body(data: seq<Byte>, fails: bool)

  datatype Error = NotFound | OffsetMismatch | WriteFailed | Invalid | PublishFailed

  // ---------------------------------------------------------------------
  // Declared trees.
  // ---------------------------------------------------------------------

  /** One path is a directory above the other. */
  predicate Above(a: Path, b: Path) {
    |a| < |b| && b[..|a|] == a
  }

  ghost predicate PathsDistinct(files: seq<Declared>) {
    && (forall i | 0 <= i < |files| :: files[i].path != [])
    && (forall i, j | 0 <= i < j < |files| :: files[i].path != files[j].path)
  }

  ghost predicate NoneAbove(files: seq<Declared>) {
    forall i, j | 0 <= i < |files| && 0 <= j < |files| :: !Above(files[i].path, files[j].path)
  }

  /** Distinct paths, none a directory of another. */
  ghost predicate TreeValid(files: seq<Declared>) {
    PathsDistinct(files) && NoneAbove(files)
  }

  /** Every proper prefix of every path is looked up among the names. */
  method ValidateTree(files: seq<Declared>) returns (ok: bool)
    ensures ok <==> TreeValid(files)
  {
    var names: set<Path> := {};
    var i := 0;
    while i < |files|
      invariant i <= |files| && names == set k | 0 <= k < i :: files[k].path
      invariant forall k | 0 <= k < i :: files[k].path != []
      invariant forall j, k | 0 <= j < k < i :: files[j].path != files[k].path
    {
      if files[i].path == [] || files[i].path in names {
        return false;
      }
      names := names + {files[i].path};
      i := i + 1;
    }
    i := 0;
    while i < |files|
      invariant i <= |files|
      invariant forall j, k | 0 <= j < |files| && 0 <= k < i :: !Above(files[j].path, files[k].path)
    {
      var n := |files[i].path| - 1;
      while n > 0
        invariant 0 <= n < |files[i].path|
        invariant forall m | n < m < |files[i].path| :: files[i].path[..m] !in names
      {
        if files[i].path[..n] in names {
          var j :| 0 <= j < |files| && files[j].path == files[i].path[..n];
          assert Above(files[j].path, files[i].path);
          return false;
        }
        n := n - 1;
      }
      forall j | 0 <= j < |files| ensures !Above(files[j].path, files[i].path) {
        assert files[j].path in names && files[j].path != [];
      }
      i := i + 1;
    }
    return true;
  }

  // ---------------------------------------------------------------------
  // What is held.
  // ---------------------------------------------------------------------

  function Concat(chunks: seq<seq<Byte>>): seq<Byte> {
    if chunks == [] then [] else Concat(chunks[..|chunks| - 1]) + chunks[|chunks| - 1]
  }

  lemma ConcatMore(chunks: seq<seq<Byte>>, chunk: seq<Byte>)
    ensures Concat(chunks + [chunk]) == Concat(chunks) + chunk
  {
    assert (chunks + [chunk])[..|chunks|] == chunks;
  }

  function PartOf(parts: map<nat, seq<Byte>>, index: nat): seq<Byte> {
    if index in parts then parts[index] else []
  }

  /** A file is in the tree exactly when all its bytes have arrived; until then they are in its part. */
  ghost predicate FileHeld(
    file: Declared, index: nat, parts: map<nat, seq<Byte>>, published: map<Path, seq<Byte>>, held: seq<Byte>)
  {
    && |held| <= file.size
    && (file.path in published <==> |held| == file.size)
    && (if file.path in published then published[file.path] == held && index !in parts
        else PartOf(parts, index) == held)
  }

  ghost predicate Held(
    files: seq<Declared>, parts: map<nat, seq<Byte>>, published: map<Path, seq<Byte>>, chunks: seq<seq<seq<Byte>>>)
  {
    && TreeValid(files) && |chunks| == |files|
    && (forall i | 0 <= i < |files| :: FileHeld(files[i], i, parts, published, Concat(chunks[i])))
    && (forall path | path in published :: exists i :: 0 <= i < |files| && files[i].path == path)
  }

  lemma HeldOne(
    files: seq<Declared>, parts: map<nat, seq<Byte>>, published: map<Path, seq<Byte>>, chunks: seq<seq<seq<Byte>>>,
    i: nat)
    requires Held(files, parts, published, chunks) && i < |files|
    ensures |chunks| == |files| && FileHeld(files[i], i, parts, published, Concat(chunks[i]))
    ensures forall path | path in published :: !Above(files[i].path, path) && !Above(path, files[i].path)
  {
    forall path | path in published ensures !Above(files[i].path, path) && !Above(path, files[i].path) {
      var j :| 0 <= j < |files| && files[j].path == path;
    }
  }

  lemma PartHeld(
    files: seq<Declared>, parts: map<nat, seq<Byte>>, published: map<Path, seq<Byte>>, chunks: seq<seq<seq<Byte>>>,
    i: nat)
    requires Held(files, parts, published, chunks) && i < |files|
    ensures |chunks| == |files| && |Concat(chunks[i])| <= files[i].size
    ensures files[i].path in published <==> |Concat(chunks[i])| == files[i].size
    ensures |Concat(chunks[i])| < files[i].size ==> PartOf(parts, i) == Concat(chunks[i])
    ensures forall path | path in published :: !Above(files[i].path, path) && !Above(path, files[i].path)
  {
    HeldOne(files, parts, published, chunks, i);
    assert FileHeld(files[i], i, parts, published, Concat(chunks[i]));
  }

  /** Holding one more chunk of one file leaves the others alone. */
  lemma HeldMore(
    files: seq<Declared>, parts: map<nat, seq<Byte>>, published: map<Path, seq<Byte>>, chunks: seq<seq<seq<Byte>>>,
    i: nat, chunk: seq<Byte>)
    requires Held(files, parts, published, chunks) && i < |files| && |Concat(chunks[i])| < files[i].size
    requires |Concat(chunks[i])| + |chunk| <= files[i].size
    ensures var held := Concat(chunks[i]) + chunk;
            var next := chunks[i := chunks[i] + [chunk]];
            && Concat(next[i]) == held
            && (|held| < files[i].size ==> Held(files, parts[i := held], published, next))
            && (|held| == files[i].size ==> Held(files, parts - {i}, published[files[i].path := held], next))
  {
    ConcatMore(chunks[i], chunk);
    var held, next := Concat(chunks[i]) + chunk, chunks[i := chunks[i] + [chunk]];
    assert FileHeld(files[i], i, parts, published, Concat(chunks[i]));
    forall k | 0 <= k < |files| && k != i
      ensures FileHeld(files[k], k, parts[i := held], published, Concat(next[k]))
      ensures FileHeld(files[k], k, parts - {i}, published[files[i].path := held], Concat(next[k]))
    {
      assert FileHeld(files[k], k, parts, published, Concat(chunks[k]));
      assert files[k].path != files[i].path;
    }
  }

  /** Opening a part creates it; what is held of the file is the same. */
  lemma HeldSame(
    files: seq<Declared>, parts: map<nat, seq<Byte>>, published: map<Path, seq<Byte>>, chunks: seq<seq<seq<Byte>>>,
    i: nat)
    requires Held(files, parts, published, chunks) && i < |files| && |Concat(chunks[i])| < files[i].size
    ensures Held(files, parts[i := Concat(chunks[i])], published, chunks)
  {
    var next := parts[i := Concat(chunks[i])];
    forall k | 0 <= k < |files| ensures FileHeld(files[k], k, next, published, Concat(chunks[k])) {
      assert FileHeld(files[k], k, parts, published, Concat(chunks[k]));
    }
  }

  // ---------------------------------------------------------------------
  // What a path in the tree means for another.
  // ---------------------------------------------------------------------

  /** Stat succeeds: a file of that name, or a directory of that name. */
  predicate Exists(tree: set<Path>, path: Path) {
    path in tree || exists other :: other in tree && Above(path, other)
  }

  /** A file can be put there: nothing has the name, and no file is a directory on the way. */
  predicate Free(tree: set<Path>, path: Path) {
    !Exists(tree, path) && forall other | other in tree :: !Above(other, path)
  }

  /** receivedBytes: a path that exists counts as complete, else the part's length. */
  function ReceivedOf(file: Declared, tree: set<Path>, part: seq<Byte>): int {
    if Exists(tree, file.path) then file.size else |part|
  }

  class Upload {
    const files: seq<Declared>
    var parts: map<nat, seq<Byte>>
    var published: map<Path, seq<Byte>>
    /** The chunks accepted for each file, in order. */
    ghost var chunks: seq<seq<seq<Byte>>>

    ghost predicate Valid()
      reads this
    {
      Held(files, parts, published, chunks)
    }

    ghost function Bytes(index: nat): seq<Byte>
      requires index < |chunks|
      reads this
    {
      Concat(chunks[index])
    }

    /** Empty files are complete at once. */
    constructor (files: seq<Declared>)
      requires TreeValid(files)
      ensures Valid() && this.files == files && |chunks| == |files|
      ensures forall i | 0 <= i < |files| :: chunks[i] == []
    {
      this.files := files;
      parts, published := map[], map[];
      chunks := seq(|files|, i => []);
      new;
      var i := 0;
      while i < |files|
        invariant i <= |files| && parts == map[] && this.files == files
        invariant |chunks| == |files| && forall k | 0 <= k < |files| :: chunks[k] == []
        invariant forall k | 0 <= k < i :: files[k].path in published <==> files[k].size == 0
        invariant forall path | path in published ::
          published[path] == [] && exists k :: 0 <= k < i && files[k].path == path
      {
        if files[i].size == 0 {
          published := published[files[i].path := []];
        }
        i := i + 1;
      }
      forall k | 0 <= k < |files| ensures FileHeld(files[k], k, parts, published, Concat(chunks[k])) {
      }
    }

    function Received(index: nat): int
      requires index < |files|
      reads this
    {
      ReceivedOf(files[index], published.Keys, PartOf(parts, index))
    }

    lemma ReceivedIsHeld(index: nat)
      requires Valid() && index < |files|
      ensures |chunks| == |files| && Received(index) == |Bytes(index)|
    {
      HeldOne(files, parts, published, chunks, index);
    }

    method Files() returns (received: seq<int>)
      requires Valid()
      ensures |received| == |files| == |chunks|
      ensures forall i | 0 <= i < |files| :: received[i] == |Bytes(i)|
    {
      received := [];
      while |received| < |files|
        invariant |received| <= |files|
        invariant forall i | 0 <= i < |received| :: received[i] == Received(i)
      {
        received := received + [Received(|received|)];
      }
      forall i | 0 <= i < |files| ensures |chunks| == |files| && received[i] == |Bytes(i)| {
        ReceivedIsHeld(i);
      }
    }

    predicate Publishable(path: Path)
      reads this
    {
      Free(published.Keys, path)
    }

    /**
     A chunk is all or nothing. It is accepted exactly at the received length of
     an unfinished file, when its body arrives whole and fits; otherwise nothing
     held changes and the caller learns where the file stands.
    */
    method Append(index: int, offset: int, body: Body) returns (received: int, err: Option<Error>)
      requires Valid()
      modifies this
      ensures Valid()
      ensures !(0 <= index < |files|) ==> err == Some(NotFound) && chunks == old(chunks)
      ensures 0 <= index < |files| ==>
        var held, size := old(Bytes(index)), files[index].size;
        if offset != |held| || |held| == size then
          received == |held| && err == Some(OffsetMismatch) && chunks == old(chunks)
        else if body.fails && |body.data| <= size - |held| then
          received == |held| && err == Some(WriteFailed) && chunks == old(chunks)
        else if |body.data| > size - |held| then received == |held| && err == Some(Invalid) && chunks == old(chunks)
        else
          && received == |held| + |body.data| && err == None
          && chunks == old(chunks)[index := old(chunks)[index] + [body.data]]
          && Bytes(index) == held + body.data
          && (received == size <==> files[index].path in published)
    {
      if index < 0 || index >= |files| {
        return 0, Some(NotFound);
      }
      hide Held, FileHeld, Concat, TreeValid, Above;
      var file := files[index];
      received := Received(index);
      ReceivedIsHeld(index);
      PartHeld(files, parts, published, chunks, index);
      if offset != received || received == file.size {
        return received, Some(OffsetMismatch);
      }
      received, err := Receive(index, body);
    }

    /** The chunk a file is waiting for. */
    method Receive(index: nat, body: Body) returns (received: int, err: Option<Error>)
      requires Valid() && index < |files| == |chunks| && |Bytes(index)| < files[index].size
      modifies this
      ensures Valid()
      ensures var held, size := old(Bytes(index)), files[index].size;
        if body.fails && |body.data| <= size - |held| then
          received == |held| && err == Some(WriteFailed) && chunks == old(chunks)
        else if |body.data| > size - |held| then received == |held| && err == Some(Invalid) && chunks == old(chunks)
        else
          && received == |held| + |body.data| && err == None
          && chunks == old(chunks)[index := old(chunks)[index] + [body.data]]
          && Bytes(index) == held + body.data
          && (received == size <==> files[index].path in published)
    {
      hide Held, FileHeld, Concat, TreeValid, Above;
      var file, offset := files[index], |PartOf(parts, index)|;
      received := offset;
      PartHeld(files, parts, published, chunks, index);
      HeldSame(files, parts, published, chunks, index);
      parts := parts[index := PartOf(parts, index)];
      ghost var created := parts;
      var written := Copy(index, body, file.size - received + 1);
      if written.None? {
        Truncate(index, offset);
        assert parts == created;
        return offset, Some(WriteFailed);
      }
      received := received + written.value;
      if received > file.size {
        Truncate(index, offset);
        assert parts == created;
        return offset, Some(Invalid);
      }
      assert body.data[..written.value] == body.data;
      HeldMore(files, created, published, chunks, index, body.data);
      assert parts == created[index := Concat(chunks[index]) + body.data];
      chunks := chunks[index := chunks[index] + [body.data]];
      if received == file.size {
        err := Publish(index);
        assert parts == created - {index};
      } else {
        err := None;
      }
    }

    /** io.Copy of a limited reader: None when reading fails before the limit. */
    method Copy(index: nat, body: Body, limit: nat) returns (written: Option<nat>)
      requires index in parts
      modifies this`parts
      ensures written.None? <==> body.fails && |body.data| < limit
      ensures written.Some? ==>
        && written.value == (if |body.data| > limit then limit else |body.data|)
        && parts == old(parts)[index := old(parts[index]) + body.data[..written.value]]
      ensures exists tail :: parts == old(parts)[index := old(parts[index]) + tail]
    {
      var n := if |body.data| > limit then limit else |body.data|;
      parts := parts[index := parts[index] + body.data[..n]];
      return if body.fails && |body.data| < limit then None else Some(n);
    }

    method Truncate(index: nat, offset: nat)
      requires index in parts && offset <= |parts[index]|
      modifies this`parts
      ensures parts == old(parts)[index := old(parts[index])[..offset]]
    {
      parts := parts[index := parts[index][..offset]];
    }

    /** publishPart: the complete part becomes the file. */
    method Publish(index: nat) returns (err: Option<Error>)
      requires index < |files| && index in parts
      modifies this`parts, this`published
      ensures old(Publishable(files[index].path)) ==>
        && err.None? && parts == old(parts) - {index}
        && published == old(published)[files[index].path := old(parts[index])]
      ensures !old(Publishable(files[index].path)) ==>
        err == Some(PublishFailed) && parts == old(parts) && published == old(published)
    {
      if !Publishable(files[index].path) {
        return Some(PublishFailed);
      }
      published := published[files[index].path := parts[index]];
      parts := parts - {index};
      return None;
    }
  }

  // ---------------------------------------------------------------------
  // Clients that resend.
  // ---------------------------------------------------------------------

  datatype Request = Request(index: int, offset: int, body: Body)

  /** Whatever arrives for an offset is what the source has there. */
  ghost predicate Honest(request: Request, sources: seq<seq<Byte>>) {
    0 <= request.index < |sources| && 0 <= request.offset
    && request.offset + |request.body.data| <= |sources[request.index]|
    ==> request.body.data == sources[request.index][request.offset..request.offset + |request.body.data|]
  }

  ghost predicate Prefixes(chunks: seq<seq<seq<Byte>>>, sources: seq<seq<Byte>>) {
    |chunks| == |sources| && forall i | 0 <= i < |chunks| :: Concat(chunks[i]) <= sources[i]
  }

  lemma PrefixGrows(held: seq<Byte>, source: seq<Byte>, data: seq<Byte>)
    requires held <= source && |held| + |data| <= |source| && data == source[|held|..|held| + |data|]
    ensures held + data <= source
  {
  }

  /**
   Requests in any order, with wrong offsets, cut bodies, oversized bodies and
   resends: as long as a client sends what its files hold at each offset, every
   file that appears in the tree is the client's file.
  */
  method Replay(upload: Upload, requests: seq<Request>, ghost sources: seq<seq<Byte>>)
    requires upload.Valid() && Prefixes(upload.chunks, sources) && |sources| == |upload.files|
    requires forall i | 0 <= i < |sources| :: |sources[i]| == upload.files[i].size
    requires forall k | 0 <= k < |requests| :: Honest(requests[k], sources)
    modifies upload
    ensures upload.Valid() && Prefixes(upload.chunks, sources)
    ensures forall i | 0 <= i < |sources| ::
      upload.files[i].path in upload.published ==> upload.published[upload.files[i].path] == sources[i]
  {
    hide Held, Concat, TreeValid;
    var k := 0;
    while k < |requests|
      invariant k <= |requests| && upload.Valid() && Prefixes(upload.chunks, sources)
    {
      var request := requests[k];
      ghost var before := upload.chunks;
      var received, err := upload.Append(request.index, request.offset, request.body);
      if err.None? {
        assert Honest(request, sources);
        PrefixGrows(Concat(before[request.index]), sources[request.index], request.body.data);
      }
      k := k + 1;
    }
    forall i | 0 <= i < |sources| && upload.files[i].path in upload.published
      ensures upload.published[upload.files[i].path] == sources[i]
    {
      HeldOne(upload.files, upload.parts, upload.published, upload.chunks, i);
      assert Concat(upload.chunks[i]) <= sources[i];
    }
  }

  // ---------------------------------------------------------------------
  // Why the tree must be checked first: declarations that can be completed.
  // ---------------------------------------------------------------------

  /**
   All bytes of one file arrive, or Create makes it because it is empty: it is
   refused when it counts as received already or cannot be put there.
  */
  function Arrive(file: Declared, published: map<Path, seq<Byte>>, data: seq<Byte>): map<Path, seq<Byte>> {
    if Free(published.Keys, file.path) then published[file.path := data] else published
  }

  /** The files arrive whole, in this order. */
  function ArriveAll(files: seq<Declared>, sources: seq<seq<Byte>>, order: seq<nat>): map<Path, seq<Byte>>
    requires |sources| == |files| && forall k | 0 <= k < |order| :: order[k] < |files|
  {
    if order == [] then map[]
    else
      var last := order[|order| - 1];
      Arrive(files[last], ArriveAll(files, sources, order[..|order| - 1]), sources[last])
  }

  /** Every file is in the tree as it was sent. */
  ghost predicate AllComplete(files: seq<Declared>, sources: seq<seq<Byte>>, published: map<Path, seq<Byte>>)
    requires |sources| == |files|
  {
    forall i | 0 <= i < |files| :: files[i].path in published && published[files[i].path] == sources[i]
  }

  /** Each file once, the empty ones, which Create makes, first and as declared. */
  ghost predicate ArrivalOrder(files: seq<Declared>, order: seq<nat>) {
    && (forall k | 0 <= k < |order| :: order[k] < |files|)
    && (forall i | 0 <= i < |files| :: i in order)
    && (forall k, m | 0 <= k < m < |order| :: order[k] != order[m])
    && (forall k, m | 0 <= k < m < |order| && files[order[m]].size == 0 ::
          files[order[k]].size == 0 && order[k] < order[m])
  }

  /** Whatever arrives, no file is put below or above another. */
  lemma {:induction false} NeverRelated(files: seq<Declared>, sources: seq<seq<Byte>>, order: seq<nat>)
    requires |sources| == |files| && forall k | 0 <= k < |order| :: order[k] < |files|
    ensures var tree := ArriveAll(files, sources, order); forall a, b | a in tree && b in tree :: !Above(a, b)
  {
    if order != [] {
      NeverRelated(files, sources, order[..|order| - 1]);
    }
  }

  /** The path is of one of the files that arrived. */
  ghost predicate Arrived(files: seq<Declared>, order: seq<nat>, path: Path) {
    exists k :: 0 <= k < |order| && order[k] < |files| && files[order[k]].path == path
  }

  lemma {:induction false} OnlyArrived(files: seq<Declared>, sources: seq<seq<Byte>>, order: seq<nat>, path: Path)
    requires |sources| == |files| && forall k | 0 <= k < |order| :: order[k] < |files|
    requires path in ArriveAll(files, sources, order)
    ensures Arrived(files, order, path)
  {
    var front, last := order[..|order| - 1], order[|order| - 1];
    if path == files[last].path {
      assert files[order[|order| - 1]].path == path;
    } else {
      OnlyArrived(files, sources, front, path);
      var k :| 0 <= k < |front| && front[k] < |files| && files[front[k]].path == path;
      assert files[order[k]].path == path;
    }
  }

  /** Among unrelated paths the next file is free to be put. */
  lemma NextIsFree(files: seq<Declared>, sources: seq<seq<Byte>>, order: seq<nat>, last: nat)
    requires |sources| == |files| && PathsDistinct(files) && NoneAbove(files) && last < |files|
    requires forall k | 0 <= k < |order| :: order[k] < |files| && order[k] != last
    ensures Free(ArriveAll(files, sources, order).Keys, files[last].path)
  {
    var tree := ArriveAll(files, sources, order);
    forall path | path in tree
      ensures path != files[last].path && !Above(path, files[last].path) && !Above(files[last].path, path)
    {
      OnlyArrived(files, sources, order, path);
      var k :| 0 <= k < |order| && order[k] < |files| && files[order[k]].path == path;
    }
  }

  lemma {:induction false} ArriveApart(files: seq<Declared>, sources: seq<seq<Byte>>, order: seq<nat>, k: nat)
    requires |sources| == |files| && PathsDistinct(files) && NoneAbove(files) && k < |order|
    requires forall m | 0 <= m < |order| :: order[m] < |files|
    requires forall m, n | 0 <= m < n < |order| :: order[m] != order[n]
    ensures var tree := ArriveAll(files, sources, order);
            files[order[k]].path in tree && tree[files[order[k]].path] == sources[order[k]]
    decreases |order|
  {
    hide Free, NoneAbove;
    var front, last := order[..|order| - 1], order[|order| - 1];
    NextIsFree(files, sources, front, last);
    if k < |front| {
      ArriveApart(files, sources, front, k);
      assert files[order[k]].path != files[last].path;
    }
  }

  /**
   Declared files with distinct paths all end up in the tree as sent, in whatever
   order they arrive, exactly when no path is a directory of another.
  */
  lemma CompletesExactly(files: seq<Declared>, sources: seq<seq<Byte>>, order: seq<nat>)
    requires PathsDistinct(files) && |sources| == |files| && ArrivalOrder(files, order)
    ensures AllComplete(files, sources, ArriveAll(files, sources, order)) <==> NoneAbove(files)
  {
    NeverRelated(files, sources, order);
    if NoneAbove(files) {
      forall i | 0 <= i < |files|
        ensures var tree := ArriveAll(files, sources, order); files[i].path in tree && tree[files[i].path] == sources[i]
      {
        assert i in order;
        var k :| 0 <= k < |order| && order[k] == i;
        ArriveApart(files, sources, order, k);
      }
    }
  }

  /**
   `a` of one byte and `a/b`, empty: once Create has made `a/b`, `a` counts as
   received without a byte of it, and no order completes both.
  */
  lemma DirectoryCountsAsFile(sources: seq<seq<Byte>>, order: seq<nat>)
    requires |sources| == 2
    ensures var files := [Declared(["a"], 1), Declared(["a", "b"], 0)];
            && PathsDistinct(files)
            && ReceivedOf(files[0], ArriveAll(files, sources, [1]).Keys, []) == files[0].size
            && (ArrivalOrder(files, order) ==> !AllComplete(files, sources, ArriveAll(files, sources, order)))
  {
    var files := [Declared(["a"], 1), Declared(["a", "b"], 0)];
    assert ["a", "b"][..1] == ["a"] && Above(files[0].path, files[1].path);
    assert [1][..0] == [] && ArriveAll(files, sources, []) == map[];
    assert files[1].path in ArriveAll(files, sources, [1]);
    if ArrivalOrder(files, order) {
      CompletesExactly(files, sources, order);
    }
  }
}
