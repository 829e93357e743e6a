/**
 The resumable cleanup scan (`internal/storage/walk.go`): batches of bounded work
 over an unchanging tree, against one recursive traversal of it.
*/
module Walk {
  import opened Wrappers

  /** A directory's entries in the order ReadDir gives them. */
  datatype Listing = End | More(name: string, node: Node, rest: Listing)

  datatype Node =
    | Directory(modified: int, listing: Listing)
    | File(regular: bool, modified: int)
    | Symlink

  /** A path as its components. */
  type Key = seq<string>

  datatype Entry = Entry(key: Key, modified: int)

  /** An open directory: what is still to be read of it, and the time of its `temporary/<id>`. */
  datatype Cursor = Cursor(key: Key, unread: Listing, temporary: Option<int>)

  const MAXIMUM_DEPTH := 32

  const ROOTS: seq<string> := ["games", "saves", "bios", "runs", "temporary"]

  // ---------------------------------------------------------------------
  // One recursive traversal.
  // ---------------------------------------------------------------------

  /** `temporary/<id>` starts its own lifetime; what is below inherits it. */
  function TemporaryTime(key: Key, modified: int, inherited: Option<int>): Option<int> {
    if |key| == 2 && key[0] == "temporary" then Some(modified) else inherited
  }

  function Later(modified: int, temporary: Option<int>): int {
    if temporary.Some? && temporary.value > modified then temporary.value else modified
  }

  /** What the entries of a directory `depth` deep contribute. */
  function WalkListing(key: Key, unread: Listing, temporary: Option<int>, depth: nat): seq<Entry>
    decreases unread
  {
    match unread
    case End => []
    case More(name, node, rest) =>
      WalkNode(key + [name], node, temporary, depth) + WalkListing(key, rest, temporary, depth)
  }

  function WalkNode(key: Key, node: Node, temporary: Option<int>, depth: nat): seq<Entry>
    decreases node
  {
    match node
    case Symlink => []
    case File(regular, modified) => if regular then [Entry(key, Later(modified, temporary))] else []
    case Directory(modified, listing) =>
      if depth < MAXIMUM_DEPTH then WalkListing(key, listing, TemporaryTime(key, modified, temporary), depth + 1) else []
  }

  type Store = map<string, Node>

  predicate Opens(store: Store, root: string) {
    root in store && store[root].Directory?
  }

  function WalkRoot(store: Store, root: string): seq<Entry> {
    if Opens(store, root) then WalkListing([root], store[root].listing, None, 1) else []
  }

  function WalkRoots(store: Store, roots: seq<string>): seq<Entry> {
    if roots == [] then [] else WalkRoot(store, roots[0]) + WalkRoots(store, roots[1..])
  }

  /** The whole store in one go. */
  function Traversal(store: Store): seq<Entry> {
    WalkRoots(store, ROOTS)
  }

  // ---------------------------------------------------------------------
  // Steps: one per root, entry and exhausted directory.
  // ---------------------------------------------------------------------

  function ListingSteps(unread: Listing, depth: nat): nat {
    match unread
    case End => 1
    case More(_, node, rest) => 1 + NodeSteps(node, depth) + ListingSteps(rest, depth)
  }

  function NodeSteps(node: Node, depth: nat): nat {
    if node.Directory? && depth < MAXIMUM_DEPTH then ListingSteps(node.listing, depth + 1) else 0
  }

  function RootSteps(store: Store, roots: seq<string>): nat {
    if roots == [] then 0
    else 1 + (if Opens(store, roots[0]) then ListingSteps(store[roots[0]].listing, 1) else 0)
         + RootSteps(store, roots[1..])
  }

  function StackEntries(stack: seq<Cursor>): seq<Entry> {
    if stack == [] then []
    else
      var top := stack[|stack| - 1];
      WalkListing(top.key, top.unread, top.temporary, |stack|) + StackEntries(stack[..|stack| - 1])
  }

  function StackSteps(stack: seq<Cursor>): nat {
    if stack == [] then 0
    else ListingSteps(stack[|stack| - 1].unread, |stack|) + StackSteps(stack[..|stack| - 1])
  }

  lemma Pushed(stack: seq<Cursor>, top: Cursor)
    ensures StackEntries(stack + [top])
         == WalkListing(top.key, top.unread, top.temporary, |stack| + 1) + StackEntries(stack)
    ensures StackSteps(stack + [top]) == ListingSteps(top.unread, |stack| + 1) + StackSteps(stack)
  {
    assert (stack + [top])[..|stack|] == stack;
  }

  lemma StepsLeft(stack: seq<Cursor>, store: Store, pending: seq<string>)
    ensures StackSteps(stack) + RootSteps(store, pending) == 0 <==> stack == [] && pending == []
    ensures stack == [] && pending == [] ==> StackEntries(stack) + WalkRoots(store, pending) == []
  {
    if stack != [] {
      assert ListingSteps(stack[|stack| - 1].unread, |stack|) > 0;
    }
  }

  /** What reading one entry takes off a directory. */
  lemma EntryRead(below: seq<Cursor>, current: Cursor, later: seq<Entry>)
    ensures current.unread.End? ==>
      && StackEntries(below + [current]) + later == [] + (StackEntries(below) + later)
      && StackSteps(below + [current]) == 1 + StackSteps(below)
    ensures current.unread.More? ==>
      var advanced, depth := current.(unread := current.unread.rest), |below| + 1;
      && StackEntries(below + [current]) + later
         == WalkNode(current.key + [current.unread.name], current.unread.node, current.temporary, depth)
            + (StackEntries(below + [advanced]) + later)
      && StackSteps(below + [current]) == 1 + NodeSteps(current.unread.node, depth) + StackSteps(below + [advanced])
  {
    hide WalkNode, NodeSteps, StackEntries, StackSteps;
    Pushed(below, current);
    if current.unread.More? {
      Pushed(below, current.(unread := current.unread.rest));
      Apart(WalkNode(current.key + [current.unread.name], current.unread.node, current.temporary, |below| + 1),
            WalkListing(current.key, current.unread.rest, current.temporary, |below| + 1), StackEntries(below), later);
    }
  }

  lemma DirectoryOpened(read: seq<Cursor>, top: Cursor, later: seq<Entry>)
    ensures StackEntries(read + [top]) + later
         == WalkListing(top.key, top.unread, top.temporary, |read| + 1) + (StackEntries(read) + later)
    ensures StackSteps(read + [top]) == ListingSteps(top.unread, |read| + 1) + StackSteps(read)
  {
    hide StackEntries, StackSteps, WalkListing;
    Pushed(read, top);
    Three(WalkListing(top.key, top.unread, top.temporary, |read| + 1), StackEntries(read), later);
  }

  lemma Regroup(a: seq<Entry>, b: seq<Entry>)
    ensures [] + (a + b) == (a + []) + b
  {
  }

  lemma Three(a: seq<Entry>, b: seq<Entry>, d: seq<Entry>)
    ensures a + (b + d) == (a + b) + d
  {
  }

  lemma Apart(a: seq<Entry>, b: seq<Entry>, d: seq<Entry>, e: seq<Entry>)
    ensures ((a + b) + d) + e == a + ((b + d) + e)
  {
  }

  class Scanner {
    const store: Store
    var pending: seq<string>
    var stack: seq<Cursor>

    constructor (store: Store)
      ensures this.store == store && Valid()
      ensures Remaining() == Traversal(store) && Steps() == RootSteps(store, ROOTS)
    {
      this.store := store;
      pending, stack := ROOTS, [];
    }

    /** Never deeper than 32 open directories. */
    predicate Valid()
      reads this
    {
      |stack| <= MAXIMUM_DEPTH
    }

    /** What later calls will still return. */
    ghost function Remaining(): seq<Entry>
      reads this
    {
      StackEntries(stack) + WalkRoots(store, pending)
    }

    /** How many steps are left. */
    ghost function Steps(): nat
      reads this
    {
      StackSteps(stack) + RootSteps(store, pending)
    }

    method Open(key: Key, node: Node)
      requires node.Directory? && |stack| < MAXIMUM_DEPTH
      modifies this`stack
      ensures |stack| == |old(stack)| + 1 && stack[..|old(stack)|] == old(stack)
      ensures stack[|old(stack)|]
        == Cursor(key, node.listing,
                  TemporaryTime(key, node.modified,
                                if old(stack) == [] then None else old(stack[|stack| - 1].temporary)))
    {
      var temporary: Option<int> := None;
      if |stack| > 0 {
        temporary := stack[|stack| - 1].temporary;
      }
      if |key| == 2 && key[0] == "temporary" {
        temporary := Some(node.modified);
      }
      stack := stack + [Cursor(key, node.listing, temporary)];
    }

    method OpenRoot()
      requires Valid() && stack == [] && pending != []
      modifies this
      ensures Valid() && Steps() == old(Steps()) - 1 && old(Remaining()) == Remaining()
    {
      var root := pending[0];
      pending := pending[1..];
      if Opens(store, root) {
        Open([root], store[root]);
        Pushed([], stack[0]);
        assert stack == [] + [stack[0]];
        Regroup(WalkRoot(store, root), WalkRoots(store, pending));
      } else {
        assert [] + WalkRoots(store, pending) == WalkRoots(store, pending);
      }
    }

    method ReadEntry() returns (found: Option<Entry>)
      requires Valid() && stack != []
      modifies this`stack
      ensures Valid() && Steps() == old(Steps()) - 1
      ensures old(Remaining()) == (if found.Some? then [found.value] else []) + Remaining()
    {
      hide StackEntries, StackSteps, WalkRoots, RootSteps, Later;
      found := None;
      var current := stack[|stack| - 1];
      ghost var below := stack[..|stack| - 1];
      ghost var later := WalkRoots(store, pending);
      assert stack == below + [current];
      EntryRead(below, current, later);
      match current.unread
      case End =>
        stack := stack[..|stack| - 1];
      case More(name, node, rest) =>
        stack := stack[|stack| - 1 := current.(unread := rest)];
        assert stack == below + [current.(unread := rest)];
        var key := current.key + [name];
        if node.Directory? {
          if |stack| < MAXIMUM_DEPTH {
            ghost var read := stack;
            Open(key, node);
            assert stack == read + [stack[|read|]];
            DirectoryOpened(read, stack[|read|], later);
          }
        } else if node.File? && node.regular {
          found := Some(Entry(key, Later(node.modified, current.temporary)));
        }
    }

    /** One turn of the loop: a root opened, an entry read or a directory finished. */
    method Step() returns (found: Option<Entry>)
      requires Valid() && (stack != [] || pending != [])
      modifies this
      ensures Valid() && Steps() == old(Steps()) - 1
      ensures old(Remaining()) == (if found.Some? then [found.value] else []) + Remaining()
    {
      found := None;
      if stack == [] {
        OpenRoot();
        assert [] + Remaining() == Remaining();
      } else {
        found := ReadEntry();
      }
    }

    /**
     At most `maximum` steps. The entries returned are the next ones of the
     traversal, and the end is reported exactly when fewer steps were left.
    */
    method Next(maximum: nat) returns (result: seq<Entry>, done: bool)
      requires Valid()
      modifies this
      ensures Valid() && old(Remaining()) == result + Remaining()
      ensures done <==> old(Steps()) < maximum
      ensures Steps() == if done then 0 else old(Steps()) - maximum
      ensures done ==> Remaining() == []
    {
      hide StackEntries, StackSteps, WalkRoots, RootSteps;
      result := [];
      var processed := 0;
      while processed < maximum
        invariant processed <= maximum && Valid()
        invariant old(Remaining()) == result + Remaining()
        invariant Steps() == old(Steps()) - processed
      {
        if stack == [] && pending == [] {
          StepsLeft(stack, store, pending);
          return result, true;
        }
        StepsLeft(stack, store, pending);
        ghost var before := Remaining();
        var found := Step();
        if found.Some? {
          result := result + [found.value];
        }
        processed := processed + 1;
      }
      return result, false;
    }
  }

  function Sum(sizes: seq<nat>): nat {
    if sizes == [] then 0 else Sum(sizes[..|sizes| - 1]) + sizes[|sizes| - 1]
  }

  /**
   However the work is cut into batches, what they return, joined, is a prefix of
   the one traversal, and all of it once they have allowed for every step.
  */
  method Scan(store: Store, sizes: seq<nat>) returns (all: seq<Entry>, done: bool)
    ensures exists rest :: Traversal(store) == all + rest
    ensures done ==> all == Traversal(store)
    ensures Sum(sizes) > RootSteps(store, ROOTS) ==> done
  {
    var scanner := new Scanner(store);
    all, done := [], false;
    var i := 0;
    while i < |sizes|
      invariant i <= |sizes| && scanner.Valid() && scanner.store == store && fresh(scanner)
      invariant Traversal(store) == all + scanner.Remaining() && !done
      invariant scanner.Steps() + Sum(sizes[..i]) == RootSteps(store, ROOTS)
    {
      var batch;
      batch, done := scanner.Next(sizes[i]);
      all := all + batch;
      assert sizes[..i + 1][..i] == sizes[..i];
      if done {
        return;
      }
      i := i + 1;
    }
    assert sizes[..i] == sizes;
  }

  // ---------------------------------------------------------------------
  // What the traversal contains, path by path.
  // ---------------------------------------------------------------------

  /** No two entries of a directory share a name. */
  predicate Distinct(listing: Listing) {
    match listing
    case End => true
    case More(name, node, rest) =>
      !Has(rest, name) && Distinct(rest) && (node.Directory? ==> Distinct(node.listing))
  }

  predicate Has(listing: Listing, name: string) {
    listing.More? && (listing.name == name || Has(listing.rest, name))
  }

  /** The node a path names, through directories only. */
  function Resolve(listing: Listing, path: Key): Option<Node>
    decreases listing
  {
    match listing
    case End => None
    case More(name, node, rest) =>
      if path == [] then None
      else if path[0] != name then Resolve(rest, path)
      else if |path| == 1 then Some(node)
      else if node.Directory? then Resolve(node.listing, path[1..]) else None
  }

  /** The time of `temporary/<id>` on the way to a path below `key`. */
  function Inherited(key: Key, listing: Listing, path: Key, temporary: Option<int>): Option<int>
    decreases listing
  {
    match listing
    case End => temporary
    case More(name, node, rest) =>
      if path == [] then temporary
      else if path[0] != name then Inherited(key, rest, path, temporary)
      else if |path| == 1 || !node.Directory? then temporary
      else Inherited(key + [name], node.listing, path[1..], TemporaryTime(key + [name], node.modified, temporary))
  }

  ghost predicate Found(key: Key, listing: Listing, temporary: Option<int>, depth: nat, entry: Entry) {
    && |key| < |entry.key| && entry.key[..|key|] == key
    && var path := entry.key[|key|..];
       && |path| + depth <= MAXIMUM_DEPTH + 1
       && Resolve(listing, path).Some? && Resolve(listing, path).value.File? && Resolve(listing, path).value.regular
       && entry.modified == Later(Resolve(listing, path).value.modified, Inherited(key, listing, path, temporary))
  }

  lemma {:induction false} WalkedBelow(key: Key, listing: Listing, temporary: Option<int>, depth: nat, i: nat)
    requires i < |WalkListing(key, listing, temporary, depth)|
    ensures var entry := WalkListing(key, listing, temporary, depth)[i];
            |key| < |entry.key| && entry.key[..|key|] == key && Has(listing, entry.key[|key|])
    decreases listing
  {
    var More(name, node, rest) := listing;
    var head := WalkNode(key + [name], node, temporary, depth);
    if i < |head| {
      if node.Directory? {
        var inner := TemporaryTime(key + [name], node.modified, temporary);
        WalkedBelow(key + [name], node.listing, inner, depth + 1, i);
        var found := WalkListing(key + [name], node.listing, inner, depth + 1)[i];
        assert found.key[..|key|] == found.key[..|key| + 1][..|key|] == key;
      }
    } else {
      WalkedBelow(key, rest, temporary, depth, i - |head|);
    }
  }

  /** Exactly the regular files at most 32 directories deep, each with its time. */
  lemma {:induction false} WalkedExactly(
    key: Key, listing: Listing, temporary: Option<int>, depth: nat, entry: Entry)
    requires Distinct(listing) && 0 < depth <= MAXIMUM_DEPTH
    ensures entry in WalkListing(key, listing, temporary, depth) <==> Found(key, listing, temporary, depth, entry)
    decreases listing
  {
    match listing
    case End =>
    case More(name, node, rest) =>
      WalkedExactly(key, rest, temporary, depth, entry);
      NodeExactly(key, name, node, temporary, depth, entry);
      HeadOrRest(key, listing, temporary, depth, entry);
  }

  /** What one entry of a directory contributes. */
  ghost predicate FoundInNode(
    key: Key, name: string, node: Node, temporary: Option<int>, depth: nat, entry: Entry)
  {
    && |key| < |entry.key| && entry.key[..|key|] == key && entry.key[|key|] == name
    && if |entry.key| == |key| + 1
       then node.File? && node.regular && entry.modified == Later(node.modified, temporary)
       else node.Directory? && depth < MAXIMUM_DEPTH
            && Found(key + [name], node.listing, TemporaryTime(key + [name], node.modified, temporary), depth + 1, entry)
  }

  lemma NodeExactly(key: Key, name: string, node: Node, temporary: Option<int>, depth: nat, entry: Entry)
    requires node.Directory? ==> Distinct(node.listing)
    requires 0 < depth <= MAXIMUM_DEPTH
    ensures entry in WalkNode(key + [name], node, temporary, depth)
       <==> FoundInNode(key, name, node, temporary, depth, entry)
    decreases node
  {
    hide Found, WalkListing, Later, Distinct;
    var own := key + [name];
    if node.Directory? && depth < MAXIMUM_DEPTH {
      WalkedExactly(own, node.listing, TemporaryTime(own, node.modified, temporary), depth + 1, entry);
      FoundBelow(key, name, node.listing, TemporaryTime(own, node.modified, temporary), depth + 1, entry);
    } else if node.File? && node.regular {
      if |key| < |entry.key| && entry.key[..|key|] == key && entry.key[|key|] == name && |entry.key| == |key| + 1 {
        assert entry.key == own;
      }
    }
  }

  lemma FoundBelow(key: Key, name: string, listing: Listing, temporary: Option<int>, depth: nat, entry: Entry)
    ensures Found(key + [name], listing, temporary, depth, entry) ==>
      |key| + 1 < |entry.key| && entry.key[..|key|] == key && entry.key[|key|] == name
  {
    var own := key + [name];
    if |own| < |entry.key| && entry.key[..|own|] == own {
      assert entry.key[..|key|] == entry.key[..|own|][..|key|] == key;
      assert entry.key[|key|] == entry.key[..|own|][|key|] == name;
    }
  }

  lemma HeadOrRest(key: Key, listing: Listing, temporary: Option<int>, depth: nat, entry: Entry)
    requires listing.More? && Distinct(listing) && 0 < depth <= MAXIMUM_DEPTH
    ensures Found(key, listing, temporary, depth, entry) <==>
      FoundInNode(key, listing.name, listing.node, temporary, depth, entry)
      || Found(key, listing.rest, temporary, depth, entry)
  {
    if |key| < |entry.key| && entry.key[..|key|] == key {
      var path := entry.key[|key|..];
      assert path[1..] == entry.key[|key| + 1..];
      if path[0] == listing.name {
        assert entry.key[..|key| + 1] == key + [listing.name];
        MissingName(listing.rest, path);
      }
    }
  }

  lemma {:induction false} MissingName(listing: Listing, path: Key)
    requires path != [] && !Has(listing, path[0])
    ensures Resolve(listing, path).None?
    decreases listing
  {
    if listing.More? {
      MissingName(listing.rest, path);
    }
  }

  /** No file is returned twice. */
  lemma {:induction false} WalkedOnce(key: Key, listing: Listing, temporary: Option<int>, depth: nat, i: nat, j: nat)
    requires Distinct(listing) && i < j < |WalkListing(key, listing, temporary, depth)|
    ensures WalkListing(key, listing, temporary, depth)[i].key != WalkListing(key, listing, temporary, depth)[j].key
    decreases listing
  {
    var More(name, node, rest) := listing;
    var head := WalkNode(key + [name], node, temporary, depth);
    var tail := WalkListing(key, rest, temporary, depth);
    if j < |head| {
      if node.Directory? {
        WalkedOnce(key + [name], node.listing, TemporaryTime(key + [name], node.modified, temporary), depth + 1, i, j);
      }
    } else {
      WalkedBelow(key, rest, temporary, depth, j - |head|);
      if i < |head| {
        HeadName(key, name, node, temporary, depth, i);
        OtherName(rest, name, tail[j - |head|].key[|key|]);
      } else {
        WalkedOnce(key, rest, temporary, depth, i - |head|, j - |head|);
      }
    }
  }

  lemma HeadName(key: Key, name: string, node: Node, temporary: Option<int>, depth: nat, i: nat)
    requires i < |WalkNode(key + [name], node, temporary, depth)|
    ensures var found := WalkNode(key + [name], node, temporary, depth)[i]; |key| < |found.key| && found.key[|key|] == name
  {
    if node.Directory? {
      WalkedBelow(key + [name], node.listing, TemporaryTime(key + [name], node.modified, temporary), depth + 1, i);
    }
  }

  lemma OtherName(listing: Listing, name: string, other: string)
    requires !Has(listing, name) && Has(listing, other)
    ensures name != other
  {
  }

  /** Below a directory that is no `temporary`, or deep inside one, the time is passed on. */
  lemma {:induction false} InheritedOn(key: Key, listing: Listing, path: Key, temporary: Option<int>)
    requires key != [] && (|key| > 1 || key[0] != "temporary")
    ensures Inherited(key, listing, path, temporary) == temporary
    decreases listing
  {
    if listing.More? && path != [] {
      if path[0] != listing.name {
        InheritedOn(key, listing.rest, path, temporary);
      } else if |path| > 1 && listing.node.Directory? {
        InheritedOn(key + [listing.name], listing.node.listing, path[1..], temporary);
      }
    }
  }

  /** Below `temporary/<id>` a file has at least the time of that directory; elsewhere it has its own. */
  lemma {:induction false} TemporaryAncestor(listing: Listing, path: Key)
    requires |path| > 1 && Resolve(listing, path).Some?
    ensures Resolve(listing, path[..1]).Some? && Resolve(listing, path[..1]).value.Directory?
    ensures Inherited(["temporary"], listing, path, None) == Some(Resolve(listing, path[..1]).value.modified)
    decreases listing
  {
    if path[0] != listing.name {
      TemporaryAncestor(listing.rest, path);
    } else {
      InheritedOn(["temporary"] + [listing.name], listing.node.listing, path[1..], Some(listing.node.modified));
    }
  }

  /** The time a file of the store is given: below `temporary/<id>`, the later of its own and that directory's. */
  function FileTime(store: Store, key: Key, modified: int): int
    requires |key| > 1
  {
    if key[0] == "temporary" && |key| > 2 && Opens(store, key[0]) && Resolve(store[key[0]].listing, key[1..2]).Some?
       && Resolve(store[key[0]].listing, key[1..2]).value.Directory?
    then
      var above := Resolve(store[key[0]].listing, key[1..2]).value.modified;
      if modified < above then above else modified
    else modified
  }

  /** A regular file below one of the five roots, at most 32 directories deep. */
  ghost predicate Stored(store: Store, entry: Entry) {
    && 1 < |entry.key| <= 33 && entry.key[0] in ["games", "saves", "bios", "runs", "temporary"]
    && Opens(store, entry.key[0])
    && var node := Resolve(store[entry.key[0]].listing, entry.key[1..]);
       node.Some? && node.value.File? && node.value.regular
       && entry.modified == FileTime(store, entry.key, node.value.modified)
  }

  lemma RootFinds(store: Store, root: string, entry: Entry)
    requires Opens(store, root) && Distinct(store[root].listing) && root in ROOTS
    ensures entry in WalkRoot(store, root) <==> Stored(store, entry) && entry.key[0] == root
  {
    var listing := store[root].listing;
    WalkedExactly([root], listing, None, 1, entry);
    if 1 < |entry.key| && entry.key[0] == root {
      var path := entry.key[1..];
      assert entry.key[..1] == [root] && path[..1] == entry.key[1..2];
      if root != "temporary" {
        InheritedOn([root], listing, path, None);
      } else if |path| > 1 && Resolve(listing, path).Some? {
        TemporaryAncestor(listing, path);
      }
      if |path| == 1 {
        ShortPath(listing, path);
      }
    }
  }

  lemma {:induction false} ShortPath(listing: Listing, path: Key)
    requires |path| == 1
    ensures Inherited(["temporary"], listing, path, None) == None
    decreases listing
  {
    if listing.More? {
      ShortPath(listing.rest, path);
    }
  }

  /** Every directory of the store has distinct names. */
  ghost predicate WellNamed(store: Store) {
    forall root | root in store && store[root].Directory? :: Distinct(store[root].listing)
  }

  lemma {:induction false} RootsFind(store: Store, roots: seq<string>, entry: Entry)
    requires WellNamed(store) && forall root | root in roots :: root in ROOTS
    ensures entry in WalkRoots(store, roots) <==> Stored(store, entry) && entry.key[0] in roots
  {
    if roots != [] {
      RootsFind(store, roots[1..], entry);
      if Opens(store, roots[0]) {
        RootFinds(store, roots[0], entry);
      }
    }
  }

  lemma RootOnce(store: Store, root: string)
    requires Opens(store, root) && Distinct(store[root].listing)
    ensures KeysDiffer(WalkRoot(store, root))
  {
    forall i, j | 0 <= i < j < |WalkRoot(store, root)|
      ensures WalkRoot(store, root)[i].key != WalkRoot(store, root)[j].key
    {
      WalkedOnce([root], store[root].listing, None, 1, i, j);
    }
  }

  ghost predicate KeysDiffer(entries: seq<Entry>) {
    forall i, j | 0 <= i < j < |entries| :: entries[i].key != entries[j].key
  }

  lemma {:induction false} RootsOnce(store: Store, roots: seq<string>)
    requires WellNamed(store) && forall root | root in roots :: root in ROOTS
    requires forall i, j | 0 <= i < j < |roots| :: roots[i] != roots[j]
    ensures KeysDiffer(WalkRoots(store, roots))
  {
    if roots != [] {
      var head, tail := WalkRoot(store, roots[0]), WalkRoots(store, roots[1..]);
      RootsOnce(store, roots[1..]);
      if Opens(store, roots[0]) {
        RootOnce(store, roots[0]);
      }
      forall i, j | 0 <= i < |head| && 0 <= j < |tail| ensures head[i].key != tail[j].key {
        assert head[i] in head && tail[j] in tail;
        RootFinds(store, roots[0], head[i]);
        RootsFind(store, roots[1..], tail[j]);
      }
    }
  }

  /**
   The traversal returns every regular file at most 32 directories deep exactly
   once, with the later of its own time and that of its `temporary/<id>`, and
   nothing else.
  */
  lemma TraversalExactly(store: Store, entry: Entry)
    requires WellNamed(store)
    ensures entry in Traversal(store) <==> Stored(store, entry)
    ensures KeysDiffer(Traversal(store))
  {
    RootsFind(store, ROOTS, entry);
    assert |"games"| == 5 && |"saves"| == 5 && |"bios"| == 4 && |"runs"| == 4 && |"temporary"| == 9;
    assert "games"[0] != "saves"[0] && "bios"[0] != "runs"[0];
    RootsOnce(store, ROOTS);
  }
}
