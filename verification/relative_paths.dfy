/**
 Slash-separated paths of any kind of character and their lexical cleaning, as Go's
 path.Clean does it: which relative paths are clean and lead below where they start.
*/
module RelativePaths {

  /** What stands between slashes. */
  function Parts<T(==)>(s: seq<T>, slash: T): (parts: seq<seq<T>>)
    ensures parts != []
  {
    if s == [] then [[]]
    else
      var rest := Parts(s[1..], slash);
      if s[0] == slash then [[]] + rest else [[s[0]] + rest[0]] + rest[1..]
  }

  function Join<T>(parts: seq<seq<T>>, slash: T): seq<T> {
    if parts == [] then [] else if |parts| == 1 then parts[0] else parts[0] + [slash] + Join(parts[1..], slash)
  }

  ghost predicate SlashFree<T>(parts: seq<seq<T>>, slash: T) {
    forall i | 0 <= i < |parts| :: slash !in parts[i]
  }

  /** One part more: nothing and `.` stay, `..` undoes the part before it, if there is one to undo. */
  function Follow<T(==)>(kept: seq<seq<T>>, part: seq<T>, dot: T, rooted: bool): seq<seq<T>> {
    if part == [] || part == [dot] then kept
    else if part == [dot, dot] then
      if kept != [] && kept[|kept| - 1] != [dot, dot] then kept[..|kept| - 1]
      else if rooted then kept
      else kept + [part]
    else kept + [part]
  }

  function FollowAll<T(==)>(kept: seq<seq<T>>, parts: seq<seq<T>>, dot: T, rooted: bool): seq<seq<T>>
    decreases |parts|
  {
    if parts == [] then kept else FollowAll(Follow(kept, parts[0], dot, rooted), parts[1..], dot, rooted)
  }

  /** The shortest path that leads where s does, `.` when that is nowhere else. */
  function Clean<T(==)>(s: seq<T>, slash: T, dot: T): seq<T> {
    var rooted := s != [] && s[0] == slash;
    var kept := Join(FollowAll([], Parts(s, slash), dot, rooted), slash);
    if rooted then [slash] + kept else if kept == [] then [dot] else kept
  }

  /** A part that goes down by one name. */
  predicate Downward<T(==)>(part: seq<T>, dot: T) {
    part != [] && part != [dot] && part != [dot, dot]
  }

  predicate AllDownward<T(==)>(parts: seq<seq<T>>, dot: T) {
    forall i | 0 <= i < |parts| :: Downward(parts[i], dot)
  }

  // ---------------------------------------------------------------------
  // Splitting and joining.
  // ---------------------------------------------------------------------

  lemma {:induction false} JoinParts<T>(s: seq<T>, slash: T)
    ensures Join(Parts(s, slash), slash) == s && SlashFree(Parts(s, slash), slash)
  {
    if s != [] {
      JoinParts(s[1..], slash);
      var rest, parts := Parts(s[1..], slash), Parts(s, slash);
      if s[0] == slash {
        assert parts[1..] == rest;
        assert Join(parts, slash) == [slash] + s[1..];
      } else {
        assert parts[1..] == rest[1..];
        if |rest| == 1 {
          assert Join(parts, slash) == [s[0]] + s[1..];
        } else {
          assert Join(parts, slash) == [s[0]] + (rest[0] + [slash] + Join(rest[1..], slash));
        }
      }
      assert s == [s[0]] + s[1..];
    }
  }

  lemma {:induction false} PartsPrefix<T>(part: seq<T>, rest: seq<T>, slash: T)
    requires slash !in part
    ensures Parts(part, slash) == [part]
    ensures Parts(part + [slash] + rest, slash) == [part] + Parts(rest, slash)
  {
    var whole := part + [slash] + rest;
    if part == [] {
      assert whole[1..] == rest;
    } else {
      assert part[0] in part;
      PartsPrefix(part[1..], rest, slash);
      assert whole[1..] == part[1..] + [slash] + rest;
      assert part == [part[0]] + part[1..];
    }
  }

  lemma {:induction false} PartsJoin<T>(parts: seq<seq<T>>, slash: T)
    requires parts != [] && SlashFree(parts, slash)
    ensures Parts(Join(parts, slash), slash) == parts
  {
    if |parts| == 1 {
      PartsPrefix(parts[0], [], slash);
      assert parts == [parts[0]];
    } else {
      PartsPrefix(parts[0], Join(parts[1..], slash), slash);
      PartsJoin(parts[1..], slash);
      assert parts == [parts[0]] + parts[1..];
    }
  }

  // ---------------------------------------------------------------------
  // Cleaning.
  // ---------------------------------------------------------------------

  /** Nothing to skip, and `..` only at the start. */
  ghost predicate Minimal<T>(parts: seq<seq<T>>, dot: T) {
    && (forall i | 0 <= i < |parts| :: parts[i] != [] && parts[i] != [dot])
    && (forall i, j | 0 <= i < j < |parts| && parts[j] == [dot, dot] :: parts[i] == [dot, dot])
  }

  lemma {:induction false} FollowMinimal<T>(kept: seq<seq<T>>, parts: seq<seq<T>>, slash: T, dot: T)
    requires Minimal(kept, dot) && SlashFree(kept, slash) && SlashFree(parts, slash)
    ensures Minimal(FollowAll(kept, parts, dot, false), dot) && SlashFree(FollowAll(kept, parts, dot, false), slash)
    decreases |parts|
  {
    if parts != [] {
      var next := Follow(kept, parts[0], dot, false);
      if |kept| > 0 {
        assert forall i | 0 <= i < |kept| - 1 :: kept[..|kept| - 1][i] == kept[i];
      }
      assert Minimal(next, dot) && SlashFree(next, slash);
      FollowMinimal(next, parts[1..], slash, dot);
    }
  }

  lemma {:induction false} FollowDown<T>(kept: seq<seq<T>>, parts: seq<seq<T>>, dot: T)
    requires AllDownward(parts, dot)
    ensures FollowAll(kept, parts, dot, false) == kept + parts
    decreases |parts|
  {
    if parts != [] {
      FollowDown(kept + [parts[0]], parts[1..], dot);
      assert kept + [parts[0]] + parts[1..] == kept + parts;
    }
  }

  /** A relative path is clean and leads below where it starts exactly when each of its parts goes down. */
  lemma CleanExactly<T>(s: seq<T>, slash: T, dot: T)
    requires slash != dot
    ensures AllDownward(Parts(s, slash), dot) <==>
      && s != [] && s[0] != slash && Clean(s, slash, dot) == s
      && s != [dot] && s != [dot, dot] && !([dot, dot, slash] <= s)
  {
    var parts := Parts(s, slash);
    JoinParts(s, slash);
    FirstPart(s, slash, dot);
    if AllDownward(parts, dot) {
      FollowDown([], parts, dot);
      assert Downward(parts[0], dot);
      assert [] + parts == parts;
    } else if s != [] && s[0] != slash && Clean(s, slash, dot) == s && s != [dot] {
      var out := FollowAll([], parts, dot, false);
      FollowMinimal([], parts, slash, dot);
      assert Join(out, slash) == s && out != [];
      PartsJoin(out, slash);
      var i :| 0 <= i < |parts| && !Downward(parts[i], dot);
      assert parts[i] == [dot, dot] && parts[0] == [dot, dot];
    }
  }

  lemma FirstPart<T>(s: seq<T>, slash: T, dot: T)
    requires slash != dot
    ensures s == [] ==> Parts(s, slash)[0] == []
    ensures s != [] && s[0] == slash ==> Parts(s, slash)[0] == []
    ensures Parts(s, slash)[0] == [dot] <==> s == [dot] || [dot, slash] <= s
    ensures Parts(s, slash)[0] == [dot, dot] <==> s == [dot, dot] || [dot, dot, slash] <= s
  {
    JoinParts(s, slash);
    var parts := Parts(s, slash);
    if parts[0] == [dot] || parts[0] == [dot, dot] {
      if |parts| > 1 {
        assert s == parts[0] + [slash] + Join(parts[1..], slash);
      }
    }
    PartsPrefix([dot], [], slash);
    PartsPrefix([dot, dot], [], slash);
    if [dot, slash] <= s {
      assert s == [dot] + [slash] + s[2..];
      PartsPrefix([dot], s[2..], slash);
    }
    if [dot, dot, slash] <= s {
      assert s == [dot, dot] + [slash] + s[3..];
      PartsPrefix([dot, dot], s[3..], slash);
    }
  }
}
