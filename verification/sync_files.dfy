/**
 The installer's file primitives and what they leave behind: each method is the
 sequence of atomic steps its source takes, and every state between two steps is
 one an interruption can leave (`internal/providersync/fsutil.go`).
*/
module SyncFiles {
  import opened ProviderInputs
  import opened Bundles
  import opened Moves

  /** A file just created, before its bytes are written. */
  const EMPTY := Content(0, 0, Opaque)

  lemma ViewPut(files: Files, path: Path, entry: Entry)
    ensures Settled(path) ==> View(files[path := entry]) == View(files)[path := entry]
    ensures !Settled(path) ==> View(files[path := entry]) == View(files)
  {
  }

  lemma ViewDrop(files: Files, path: Path)
    ensures View(files - {path}) == View(files) - {path}
    ensures !Settled(path) ==> View(files - {path}) == View(files)
  {
  }

  lemma ViewRename(files: Files, from: Path, to: Path)
    requires from in files && !Settled(from) && Settled(to)
    ensures View((files - {from})[to := files[from]]) == View(files)[to := files[from]]
  {
  }

  lemma ScratchAllowed(c: Context, files: Files)
    ensures Allowed(c, files, Scratch) && Effect(c, files, Scratch) == files
  {
  }

  function WithoutStaging(files: Files, base: string): Files {
    map path | path in files && path.directory != Staging(base) :: files[path]
  }

  lemma ViewWithoutStaging(files: Files, base: string)
    ensures View(WithoutStaging(files, base)) == View(files)
  {
  }

  // ---------------------------------------------------------------------
  // Hard links: one inode has one content.
  // ---------------------------------------------------------------------

  function Nodes(files: Files): set<Node> {
    set path, name | path in files && name in TreeAt(files, path) :: TreeAt(files, path)[name]
  }

  ghost predicate Coherent(files: Files) {
    forall a, b | a in Nodes(files) && b in Nodes(files) && SameFile(a, b) :: a.content == b.content
  }

  /** No file has an inode yet to be given out. */
  ghost predicate Fresh(files: Files, inodes: nat) {
    forall node | node in Nodes(files) && node.Regular? :: node.inode < inodes
  }

  /** Links and new files leave inodes sound: creating takes a fresh one, linking one that is there. */
  ghost predicate InodesSound(files: Files, inodes: nat) {
    Coherent(files) && Fresh(files, inodes)
  }

  lemma NodeAdded(files: Files, target: Path, name: string, node: Node)
    ensures Nodes(files[target := Folder(TreeAt(files, target)[name := node])]) <= Nodes(files) + {node}
  {
    var next := files[target := Folder(TreeAt(files, target)[name := node])];
    forall x | x in Nodes(next) ensures x in Nodes(files) + {node} {
      var path, other :| path in next && other in TreeAt(next, path) && TreeAt(next, path)[other] == x;
      if path == target {
        assert other == name || (other in TreeAt(files, target) && TreeAt(files, target)[other] == x);
      } else {
        assert TreeAt(next, path) == TreeAt(files, path);
      }
    }
  }

  lemma CreatedSound(files: Files, inodes: nat, target: Path, name: string, contents: Content)
    requires InodesSound(files, inodes)
    ensures InodesSound(files[target := Folder(TreeAt(files, target)[name := Regular(inodes, contents)])], inodes + 1)
  {
    NodeAdded(files, target, name, Regular(inodes, contents));
    hide Nodes;
  }

  lemma MoreInodes(files: Files, inodes: nat)
    requires InodesSound(files, inodes)
    ensures InodesSound(files, inodes + 1)
  {
    hide Nodes;
  }

  lemma LinkedSound(files: Files, inodes: nat, source: Path, target: Path, name: string)
    requires InodesSound(files, inodes) && name in TreeAt(files, source)
    ensures InodesSound(files[target := Folder(TreeAt(files, target)[name := TreeAt(files, source)[name]])], inodes)
  {
    NodeAdded(files, target, name, TreeAt(files, source)[name]);
    assert TreeAt(files, source)[name] in Nodes(files);
    hide Nodes;
  }

  lemma FileSound(files: Files, inodes: nat, path: Path, entry: Entry)
    requires InodesSound(files, inodes) && entry.File?
    ensures InodesSound(files[path := entry], inodes)
  {
    var next := files[path := entry];
    forall x | x in Nodes(next) ensures x in Nodes(files) {
      var p, name :| p in next && name in TreeAt(next, p) && TreeAt(next, p)[name] == x;
      assert TreeAt(files, p) == TreeAt(next, p);
    }
    hide Nodes;
  }

  lemma LessSound(files: Files, rest: Files, inodes: nat)
    requires InodesSound(files, inodes) && forall path | path in rest :: path in files && files[path] == rest[path]
    ensures InodesSound(rest, inodes)
  {
    NodesWithin(files, rest);
    hide Nodes;
  }

  lemma MovedSound(files: Files, inodes: nat, from: Path, to: Path)
    requires InodesSound(files, inodes) && from in files
    ensures InodesSound((files - {from})[to := files[from]], inodes)
  {
    NodesMoved(files, from, to);
    hide Nodes;
  }

  lemma NodesWithin(files: Files, rest: Files)
    requires forall path | path in rest :: path in files && files[path] == rest[path]
    ensures Nodes(rest) <= Nodes(files)
  {
    forall x | x in Nodes(rest) ensures x in Nodes(files) {
      var path, name :| path in rest && name in TreeAt(rest, path) && TreeAt(rest, path)[name] == x;
      assert TreeAt(files, path) == TreeAt(rest, path);
    }
  }

  lemma NodesMoved(files: Files, from: Path, to: Path)
    requires from in files
    ensures Nodes((files - {from})[to := files[from]]) <= Nodes(files)
  {
    var next := (files - {from})[to := files[from]];
    forall x | x in Nodes(next) ensures x in Nodes(files) {
      var path, name :| path in next && name in TreeAt(next, path) && TreeAt(next, path)[name] == x;
      assert TreeAt(next, path) == TreeAt(files, if path == to then from else path);
    }
  }

  /** One of the paths is a directory of the other. */
  predicate Clash(a: string, b: string) {
    a + "/" <= b || b + "/" <= a
  }

  /** A file can be created: nothing has the name, and no file is a directory on its way. */
  predicate Placeable(tree: Tree, path: string) {
    path !in tree && forall other | other in tree :: !Clash(path, other)
  }

  class FileSystem {
    const c: Context
    var files: Files
    var inodes: nat
    ghost var trace: seq<Files>
    ghost var log: seq<Move>

    constructor (c: Context, files: Files, inodes: nat)
      requires PinValid(c.pin) && c.root != c.cache && InodesSound(files, inodes)
      ensures Valid() && this.c == c && this.files == files && trace == [View(files)] && log == []
    {
      this.c, this.files, this.inodes := c, files, inodes;
      trace, log := [View(files)], [];
    }

    ghost predicate Valid()
      reads this
    {
      && PinValid(c.pin) && c.root != c.cache
      && Follows(c, trace, log) && trace[|log|] == View(files)
      && InodesSound(files, inodes)
    }

    /** What an interruption now would leave, staging and pending files aside. */
    ghost function Now(): Files
      reads this
    {
      View(files)
    }

    /** Steps are only ever added. */
    twostate predicate Continues()
      reads this
    {
      old(log) <= log && old(trace) <= trace
    }

    twostate predicate Untouched()
      reads this
    {
      Continues() && Now() == old(Now())
    }

    ghost method Record(move: Move, before: Files)
      requires PinValid(c.pin) && c.root != c.cache && Follows(c, trace, log) && trace[|log|] == before
      requires Allowed(c, before, move) && Now() == Effect(c, before, move) && InodesSound(files, inodes)
      modifies this`trace, this`log
      ensures Valid() && log == old(log) + [move] && trace == old(trace) + [Now()]
    {
      trace, log := trace + [Now()], log + [move];
    }

    method Put(path: Path, entry: Entry, ghost move: Move)
      requires Valid() && Allowed(c, Now(), move)
      requires if Settled(path) then Effect(c, Now(), move) == Now()[path := entry] else move.Scratch?
      requires entry.Folder? ==> InodesSound(files[path := entry], inodes)
      modifies this`files, this`trace, this`log
      ensures Valid() && Continues() && files == old(files)[path := entry]
      ensures Now() == if Settled(path) then old(Now())[path := entry] else old(Now())
      ensures log == old(log) + [move]
    {
      hide Follows, Taken, Allowed, Effect, PinValid, InodesSound;
      ScratchAllowed(c, Now());
      if entry.File? {
        FileSound(files, inodes, path, entry);
      }
      ViewPut(files, path, entry);
      ghost var before := Now();
      files := files[path := entry];
      Record(move, before);
    }

    /** os.RemoveAll of one entry. */
    method Remove(path: Path, ghost move: Move)
      requires Valid() && Allowed(c, Now(), move)
      requires if Settled(path) then Effect(c, Now(), move) == Now() - {path} else move.Scratch?
      modifies this`files, this`trace, this`log
      ensures Valid() && Continues() && files == old(files) - {path}
      ensures Now() == old(Now()) - {path} && (!Settled(path) ==> Now() == old(Now()))
      ensures log == old(log) + [move]
    {
      hide Follows, Taken, Allowed, Effect, PinValid, InodesSound;
      ScratchAllowed(c, Now());
      ViewDrop(files, path);
      LessSound(files, files - {path}, inodes);
      ghost var before := Now();
      files := files - {path};
      Record(move, before);
    }

    method RemoveStaging(base: string)
      requires Valid()
      modifies this`files, this`trace, this`log
      ensures Valid() && Untouched() && files == WithoutStaging(old(files), base)
      ensures log == old(log) + [Scratch]
    {
      hide Follows, Taken, Allowed, Effect, PinValid, InodesSound;
      ViewWithoutStaging(files, base);
      LessSound(files, WithoutStaging(files, base), inodes);
      ScratchAllowed(c, Now());
      ghost var before := Now();
      files := WithoutStaging(files, base);
      Record(Scratch, before);
    }

    method Rename(from: Path, to: Path, ghost move: Move)
      requires Valid() && from in files && !Settled(from) && Settled(to)
      requires Allowed(c, Now(), move) && Effect(c, Now(), move) == Now()[to := files[from]]
      modifies this`files, this`trace, this`log
      ensures Valid() && Continues() && files == (old(files) - {from})[to := old(files)[from]]
      ensures Now() == old(Now())[to := old(files)[from]]
      ensures log == old(log) + [move]
    {
      hide Follows, Taken, Allowed, Effect, PinValid, InodesSound;
      ScratchAllowed(c, Now());
      ViewRename(files, from, to);
      MovedSound(files, inodes, from, to);
      ghost var before := Now();
      files := (files - {from})[to := files[from]];
      Record(move, before);
    }

    /** Readers see the old file or the new one, whole. */
    method WriteAtomic(directory: Directory, word: string, contents: Content, ghost move: Move)
      requires Valid() && !directory.Staging? && Allowed(c, Now(), move)
      requires Effect(c, Now(), move) == Now()[Path(directory, Word(word)) := File(contents)]
      modifies this`files, this`trace, this`log
      ensures Valid() && Continues()
      ensures Now() == old(Now())[Path(directory, Word(word)) := File(contents)]
      ensures files == (old(files) - {Path(directory, Pending(word))})[Path(directory, Word(word)) := File(contents)]
      ensures log == old(log) + [Scratch, Scratch, move]
    {
      hide Follows, Taken, Allowed, Effect, PinValid, InodesSound;
      var pending := Path(directory, Pending(word));
      ScratchAllowed(c, Now());
      Put(pending, File(EMPTY), Scratch);
      Put(pending, File(contents), Scratch);
      Rename(pending, Path(directory, Word(word)), move);
    }

    /** Creates a file below a staged directory, under an inode of its own, and fills it. */
    method CreateFile(target: Path, path: string, contents: Content) returns (ok: bool)
      requires Valid() && !Settled(target)
      modifies this`files, this`inodes, this`trace, this`log
      ensures Valid() && Untouched() && files - {target} == old(files - {target})
      ensures ok == Placeable(old(TreeAt(files, target)), path)
      ensures ok ==> TreeAt(files, target) == old(TreeAt(files, target))[path := Regular(old(inodes), contents)]
      ensures !ok ==> files == old(files)
    {
      hide Follows, Taken, Allowed, Effect, PinValid, Placeable, InodesSound;
      var tree := TreeAt(files, target);
      if !Placeable(tree, path) {
        return false;
      }
      ghost var before := files;
      var inode := inodes;
      CreatedSound(files, inodes, target, path, EMPTY);
      CreatedSound(files, inodes, target, path, contents);
      MoreInodes(files, inodes);
      inodes := inodes + 1;
      ScratchAllowed(c, Now());
      Put(target, Folder(tree[path := Regular(inode, EMPTY)]), Scratch);
      assert files[target := Folder(tree[path := Regular(inode, contents)])]
          == before[target := Folder(tree[path := Regular(inode, contents)])];
      Put(target, Folder(tree[path := Regular(inode, contents)]), Scratch);
      return true;
    }

    /** The same regular file, or a copy of its bytes on another file system. */
    method LinkOrCopy(source: Path, path: string, target: Path) returns (ok: bool)
      requires Valid() && !Settled(target) && source != target
      modifies this`files, this`inodes, this`trace, this`log
      ensures Valid() && Untouched() && files - {target} == old(files - {target})
      ensures ok ==> path in old(TreeAt(files, source)) && Placeable(old(TreeAt(files, target)), path)
      ensures ok ==>
        && path in TreeAt(files, target)
        && TreeAt(files, target) == old(TreeAt(files, target))[path := TreeAt(files, target)[path]]
        && (TreeAt(files, target)[path].Regular? <==> old(TreeAt(files, source))[path].Regular?)
        && (TreeAt(files, target)[path].Regular? ==>
              TreeAt(files, target)[path].content == old(TreeAt(files, source))[path].content)
      ensures path in old(TreeAt(files, source)) && old(TreeAt(files, source))[path].Regular?
        ==> ok == Placeable(old(TreeAt(files, target)), path)
    {
      hide Follows, Taken, Allowed, Effect, PinValid, Placeable, InodesSound;
      var from, tree := TreeAt(files, source), TreeAt(files, target);
      if path !in from || !Placeable(tree, path) {
        return false;
      }
      var crossDevice: bool := *;
      if crossDevice {
        if from[path].Irregular? {
          return false;
        }
        ok := CreateFile(target, path, from[path].content);
      } else {
        ScratchAllowed(c, Now());
        LinkedSound(files, inodes, source, target, path);
        Put(target, Folder(tree[path := from[path]]), Scratch);
        return true;
      }
    }
  }
}
