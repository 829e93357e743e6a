/**
 Interval views over stored objects (`internal/storage/content.go`): reading and
 seeking a logical file inside a larger one through its own descriptor.
*/
module Content {

  type Byte = b: nat | b < 256

  const MAXIMUM_INT64: int := 0x7FFF_FFFF_FFFF_FFFF

  newtype Int64 = x: int | -0x8000_0000_0000_0000 <= x <= 0x7FFF_FFFF_FFFF_FFFF

  /** An open regular file with its offset. */
  class OpenFile {
    const bytes: seq<Byte>
    var position: Int64

    constructor (bytes: seq<Byte>)
      requires |bytes| <= MAXIMUM_INT64
      ensures this.bytes == bytes && position == 0
    {
      this.bytes, position := bytes, 0;
    }

    method SeekTo(offset: Int64)
      requires offset >= 0
      modifies this`position
      ensures position == offset
    {
      position := offset;
    }

    /** Fills some of the first `limit` places; nothing at the end of the file. */
    method Read(buffer: array<Byte>, limit: nat) returns (n: nat, eof: bool)
      requires limit <= buffer.Length && |bytes| <= MAXIMUM_INT64 && 0 <= position
      modifies this`position, buffer
      ensures n <= limit && position as int == old(position) as int + n
      ensures eof <==> limit > 0 && old(position) as int >= |bytes|
      ensures n == 0 <==> limit == 0 || old(position) as int >= |bytes|
      ensures n > 0 ==> position as int <= |bytes| && buffer[..n] == bytes[old(position)..position]
      ensures buffer[n..] == old(buffer[n..])
    {
      if limit == 0 {
        return 0, false;
      }
      if position as int >= |bytes| {
        return 0, true;
      }
      var available := |bytes| - position as int;
      n :| 0 < n <= limit && n <= available;
      var i := 0;
      while i < n
        invariant i <= n && position == old(position)
        invariant forall k | 0 <= k < i :: buffer[k] == bytes[position as int + k]
        invariant forall k | n <= k < buffer.Length :: buffer[k] == old(buffer[k])
      {
        buffer[i] := bytes[position as int + i];
        i := i + 1;
      }
      position := (position as int + n) as Int64;
      eof := false;
    }
  }

  lemma InnerSlice(bytes: seq<Byte>, base: nat, size: nat, from: nat, n: nat)
    requires base + size <= |bytes| && from + n <= size
    ensures bytes[base..base + size][from..from + n] == bytes[base + from..base + from + n]
  {
    var inner, direct := bytes[base..base + size][from..from + n], bytes[base + from..base + from + n];
    forall k | 0 <= k < n ensures inner[k] == direct[k] {
      assert inner[k] == bytes[base..base + size][from + k];
    }
  }

  datatype Whence = SeekStart | SeekCurrent | SeekEnd | Other

  datatype Opened = View(view: Content) | Refused

  class Content {
    const file: OpenFile
    const base: Int64
    const size: Int64

    constructor (file: OpenFile, base: Int64, size: Int64)
      requires 0 <= base && 0 <= size && base as int + size as int <= |file.bytes| <= MAXIMUM_INT64
      modifies file
      ensures this.file == file && this.base == base && this.size == size
      ensures Valid() && Logical() == 0
    {
      this.file, this.base, this.size := file, base, size;
      new;
      file.SeekTo(base);
    }

    /** The descriptor never leaves the interval. */
    ghost predicate Valid()
      reads this, file
    {
      && 0 <= base && 0 <= size && base as int + size as int <= |file.bytes| <= MAXIMUM_INT64
      && base <= file.position && file.position as int <= base as int + size as int
    }

    /** The logical file. */
    ghost function Bytes(): (r: seq<Byte>)
      requires 0 <= base && 0 <= size && base as int + size as int <= |file.bytes|
      ensures |r| == size as int
    {
      file.bytes[base as int..base as int + size as int]
    }

    ghost function Logical(): int
      reads file
    {
      file.position as int - base as int
    }

    /** The next bytes of the logical file and none beyond it; the end exactly at its end. */
    method Read(buffer: array<Byte>) returns (n: nat, eof: bool)
      requires Valid()
      modifies file, buffer
      ensures Valid() && n <= buffer.Length && Logical() == old(Logical()) + n
      ensures eof <==> old(Logical()) == size as int
      ensures n == 0 <==> eof || buffer.Length == 0
      ensures buffer[..n] == Bytes()[old(Logical())..old(Logical()) + n]
      ensures buffer[n..] == old(buffer[n..])
    {
      var physical := file.position;
      var remaining := size - (physical - base);
      if remaining <= 0 {
        return 0, true;
      }
      var limit: nat := buffer.Length;
      if limit > remaining as int {
        limit := remaining as int;
      }
      n, eof := file.Read(buffer, limit);
      ghost var from := physical as int - base as int;
      InnerSlice(file.bytes, base as int, size as int, from, n);
    }

    /** Moves exactly when the target lies in the logical file; no step leaves 64 bits. */
    method Seek(offset: Int64, whence: Whence) returns (logical: Int64, ok: bool)
      requires Valid()
      modifies file
      ensures var origin := match whence
                            case SeekStart => 0 case SeekCurrent => old(Logical()) case SeekEnd => size as int
                            case Other => 0;
              && (ok <==> whence != Other && 0 <= origin + offset as int <= size as int)
              && (ok ==> logical as int == origin + offset as int && Logical() == logical as int)
      ensures Valid() && (!ok ==> logical == 0 && Logical() == old(Logical()))
    {
      var origin: Int64 := 0;
      match whence {
        case SeekStart =>
        case SeekCurrent =>
          var physical := file.position;
          origin := physical - base;
        case SeekEnd =>
          origin := size;
        case Other =>
          return 0, false;
      }
      if origin < 0 || origin > size || offset < -origin || offset > size - origin {
        return 0, false;
      }
      logical := origin + offset;
      file.SeekTo(base + logical);
      return logical, true;
    }
  }

  /** Opens exactly the intervals that lie in a regular file. */
  method OpenContent(bytes: seq<Byte>, regular: bool, offset: Int64, size: Int64) returns (result: Opened)
    requires |bytes| <= MAXIMUM_INT64
    ensures result.View? <==> regular && 0 <= offset && 0 <= size && offset as int + size as int <= |bytes|
    ensures result.View? ==>
      && fresh(result.view) && fresh(result.view.file) && result.view.Valid() && result.view.Logical() == 0
      && result.view.size == size && result.view.Bytes() == bytes[offset as int..offset as int + size as int]
  {
    var file := new OpenFile(bytes);
    var length := |bytes| as Int64;
    if !regular || offset < 0 || size < 0 || offset > length || size > length - offset {
      return Refused;
    }
    var view := new Content(file, offset, size);
    return View(view);
  }

  /** Copying to the end, in pieces of any size, gives the rest of the logical file. */
  method ReadAll(view: Content, buffer: array<Byte>) returns (all: seq<Byte>)
    requires view.Valid() && buffer.Length > 0
    modifies view.file, buffer
    ensures view.Valid() && view.Logical() == view.size as int
    ensures all == view.Bytes()[old(view.Logical())..]
  {
    all := [];
    var eof := false;
    while !eof
      invariant view.Valid() && old(view.Logical()) <= view.Logical()
      invariant all == view.Bytes()[old(view.Logical())..view.Logical()]
      invariant eof ==> view.Logical() == view.size as int
      decreases view.size as int - view.Logical(), !eof
    {
      var n;
      n, eof := view.Read(buffer);
      all := all + buffer[..n];
    }
  }

  /** From any position, any part of the logical file can be read and is exactly that part. */
  method ReadPart(view: Content, offset: Int64, buffer: array<Byte>) returns (n: nat, ok: bool)
    requires view.Valid()
    modifies view.file, buffer
    ensures view.Valid() && (ok <==> 0 <= offset <= view.size)
    ensures n <= buffer.Length
    ensures ok ==>
      && offset as int + n <= view.size as int
      && buffer[..n] == view.Bytes()[offset as int..offset as int + n]
    ensures ok && offset < view.size && buffer.Length > 0 ==> n > 0
  {
    var logical;
    logical, ok := view.Seek(offset, SeekStart);
    n := 0;
    if ok {
      var eof;
      n, eof := view.Read(buffer);
    }
  }
}
