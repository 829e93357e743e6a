/**
 The stored title order and the letter index over it
 (`internal/format/titleorder/titleorder.go`, `internal/persistence/title_order.go`).
 Trimming, scripts and collation are library functions and stay parameters.
*/
module TitleOrder {
  import opened Semver

  /** What strings, unicode and collate provide. */
  datatype Library = Library(
    trim: string -> string, latin: char -> bool, han: char -> bool,
    compare: (string, string) -> int, key: string -> string)

  const OTHER: char := '#'
  const KEY_RUNES := 48
  const VERSION := 1
  const BATCH := 500

  const LATIN: string := "ABCDEFGHIJKLMNOPQRSTUVWXYZ"

  /** The letters with a first character of their pinyin group; I, U and V have none. */
  const PINYIN: string := "ABCDEFGHJKLMNOPQRSTWXYZ"

  datatype Order = Order(letter: char, key: string)

  predicate IsLetter(c: char) {
    'A' <= c <= 'Z' || c == OTHER
  }

  function Rank(letter: char): nat
    requires IsLetter(letter)
    ensures Rank(letter) < 27
  {
    if letter == OTHER then 26 else letter as int - 'A' as int
  }

  /** The last candidate the value is not before; OTHER when it is before all of them. */
  function LastNotBefore(compare: (string, string) -> int, value: string, letters: string, firsts: seq<string>): char
    requires |letters| == |firsts|
  {
    if letters == [] then OTHER
    else
      var n := |letters| - 1;
      if compare(value, firsts[n]) >= 0 then letters[n]
      else LastNotBefore(compare, value, letters[..n], firsts[..n])
  }

  function Singletons(s: string): (r: seq<string>)
    ensures |r| == |s| && forall i | 0 <= i < |r| :: r[i] == [s[i]]
  {
    seq(|s|, i requires 0 <= i < |s| => [s[i]])
  }

  function GroupOf(library: Library, pinyin: seq<string>, first: char): char
    requires |pinyin| == |PINYIN|
  {
    if library.latin(first) then LastNotBefore(library.compare, [first], LATIN, Singletons(LATIN))
    else if library.han(first) then LastNotBefore(library.compare, [first], PINYIN, pinyin)
    else OTHER
  }

  method Group(library: Library, pinyin: seq<string>, first: char) returns (letter: char)
    requires |pinyin| == |PINYIN|
    ensures letter == GroupOf(library, pinyin, first) && IsLetter(letter)
  {
    if library.latin(first) {
      letter := Latest(library.compare, [first], LATIN, Singletons(LATIN));
      LastIsLetter(library.compare, [first], LATIN, Singletons(LATIN));
    } else if library.han(first) {
      letter := Latest(library.compare, [first], PINYIN, pinyin);
      LastIsLetter(library.compare, [first], PINYIN, pinyin);
    } else {
      letter := OTHER;
    }
  }

  method Latest(compare: (string, string) -> int, value: string, letters: string, firsts: seq<string>)
    returns (letter: char)
    requires |letters| == |firsts|
    ensures letter == LastNotBefore(compare, value, letters, firsts)
  {
    letter := OTHER;
    var i := 0;
    while i < |letters|
      invariant i <= |letters| && letter == LastNotBefore(compare, value, letters[..i], firsts[..i])
    {
      assert letters[..i + 1][..i] == letters[..i] && firsts[..i + 1][..i] == firsts[..i];
      if compare(value, firsts[i]) >= 0 {
        letter := letters[i];
      }
      i := i + 1;
    }
    assert letters[..i] == letters && firsts[..i] == firsts;
  }

  lemma {:induction false} LastIsLetter(
    compare: (string, string) -> int, value: string, letters: string, firsts: seq<string>)
    requires |letters| == |firsts| && forall i | 0 <= i < |letters| :: IsLetter(letters[i])
    ensures IsLetter(LastNotBefore(compare, value, letters, firsts))
  {
    if letters != [] {
      LastIsLetter(compare, value, letters[..|letters| - 1], firsts[..|letters| - 1]);
    }
  }

  function TwoDigits(n: nat): (r: string)
    requires n < 100
    ensures |r| == 2
  {
    [('0' as int + n / 10) as char, ('0' as int + n % 10) as char]
  }

  function Source(library: Library, title: string, sortName: string): string {
    var source := if library.trim(sortName) == "" then library.trim(title) else library.trim(sortName);
    if |source| > KEY_RUNES then source[..KEY_RUNES] else source
  }

  /** The i-th candidate is the last that the value is not before. */
  ghost predicate Candidate(
    compare: (string, string) -> int, value: string, letters: string, firsts: seq<string>, letter: char, i: nat)
    requires |letters| == |firsts|
  {
    && i < |letters| && letter == letters[i] && compare(value, firsts[i]) >= 0
    && forall j | i < j < |letters| :: compare(value, firsts[j]) < 0
  }

  /** The last candidate that the value is not before; '#' before all candidates. */
  ghost predicate LastCandidate(
    compare: (string, string) -> int, value: string, letters: string, firsts: seq<string>, letter: char)
    requires |letters| == |firsts|
  {
    || (exists i: nat :: Candidate(compare, value, letters, firsts, letter, i))
    || (letter == '#' && forall j | 0 <= j < |letters| :: compare(value, firsts[j]) < 0)
  }

  /** The letter of a text: by its first character, '#' for an empty text and for other scripts. */
  ghost predicate LetterSays(library: Library, pinyin: seq<string>, text: string, letter: char)
    requires |pinyin| == 23
  {
    if text == "" then letter == '#'
    else if library.latin(text[0]) then
      LastCandidate(library.compare, [text[0]], "ABCDEFGHIJKLMNOPQRSTUVWXYZ", Singletons("ABCDEFGHIJKLMNOPQRSTUVWXYZ"), letter)
    else if library.han(text[0]) then
      LastCandidate(library.compare, [text[0]], "ABCDEFGHJKLMNOPQRSTWXYZ", pinyin, letter)
    else letter == '#'
  }

  /** Two digits for the place of the letter, A to Z and then '#', and the collation key of the text. */
  predicate KeySays(library: Library, text: string, letter: char, key: string) {
    && |key| >= 2 && '0' <= key[0] <= '9' && '0' <= key[1] <= '9'
    && (key[0] as int - '0' as int) * 10 + (key[1] as int - '0' as int)
       == (if letter == '#' then 26 else letter as int - 'A' as int)
    && key[2..] == library.key(text)
  }

  /** The text a title is ordered by: its trimmed sort name, without one its trimmed title; at most 48 characters. */
  ghost predicate SourceSays(library: Library, title: string, sortName: string, text: string) {
    var whole := if library.trim(sortName) != "" then library.trim(sortName) else library.trim(title);
    |text| == (if |whole| <= 48 then |whole| else 48) && text <= whole
  }

  ghost predicate OrderSays(library: Library, pinyin: seq<string>, title: string, sortName: string, order: Order)
    requires |pinyin| == 23
  {
    exists text :: SourceSays(library, title, sortName, text) && LetterSays(library, pinyin, text, order.letter)
      && KeySays(library, text, order.letter, order.key)
  }

  lemma {:induction false} LastNotBeforeIs(
    compare: (string, string) -> int, value: string, letters: string, firsts: seq<string>)
    requires |letters| == |firsts|
    ensures LastCandidate(compare, value, letters, firsts, LastNotBefore(compare, value, letters, firsts))
  {
    if letters != [] {
      var n := |letters| - 1;
      if compare(value, firsts[n]) >= 0 {
        assert Candidate(compare, value, letters, firsts, letters[n], n);
      } else {
        LastNotBeforeIs(compare, value, letters[..n], firsts[..n]);
        var letter := LastNotBefore(compare, value, letters[..n], firsts[..n]);
        if i: nat :| Candidate(compare, value, letters[..n], firsts[..n], letter, i) {
          assert firsts[..n][i] == firsts[i];
          forall j | i < j < |letters| ensures compare(value, firsts[j]) < 0 {
            assert j < n ==> firsts[..n][j] == firsts[j];
          }
          assert Candidate(compare, value, letters, firsts, letter, i);
        } else {
          forall j | 0 <= j < |letters| ensures compare(value, firsts[j]) < 0 {
            assert j < n ==> firsts[..n][j] == firsts[j];
          }
        }
      }
    }
  }

  lemma TwoDigitsRead(n: nat, rest: string)
    requires n < 100
    ensures var t := TwoDigits(n) + rest;
      && '0' <= t[0] <= '9' && '0' <= t[1] <= '9' && t[2..] == rest
      && (t[0] as int - '0' as int) * 10 + (t[1] as int - '0' as int) == n
  {
  }

  lemma LetterExactly(library: Library, pinyin: seq<string>, text: string)
    requires |pinyin| == |PINYIN| == 23
    ensures LetterSays(library, pinyin, text, LetterOf(library, pinyin, text))
    ensures IsLetter(LetterOf(library, pinyin, text))
  {
    if text != "" {
      LetterOfGroup(library, pinyin, text[0]);
      LastNotBeforeIs(library.compare, [text[0]], LATIN, Singletons(LATIN));
      LastNotBeforeIs(library.compare, [text[0]], PINYIN, pinyin);
    }
  }

  function LetterOf(library: Library, pinyin: seq<string>, source: string): char
    requires |pinyin| == |PINYIN|
  {
    if source == "" then OTHER else GroupOf(library, pinyin, source[0])
  }

  /** The sort name when there is one, else the title; the key starts with the rank of the letter. */
  function Of(library: Library, pinyin: seq<string>, title: string, sortName: string): (order: Order)
    requires |pinyin| == |PINYIN|
    ensures IsLetter(order.letter)
    ensures order.key == TwoDigits(Rank(order.letter)) + library.key(Source(library, title, sortName))
    ensures OrderSays(library, pinyin, title, sortName, order)
  {
    var source := Source(library, title, sortName);
    LetterExactly(library, pinyin, source);
    var letter := LetterOf(library, pinyin, source);
    TwoDigitsRead(Rank(letter), library.key(source));
    Order(letter, TwoDigits(Rank(letter)) + library.key(source))
  }

  lemma LetterOfGroup(library: Library, pinyin: seq<string>, first: char)
    requires |pinyin| == |PINYIN|
    ensures IsLetter(GroupOf(library, pinyin, first))
  {
    LastIsLetter(library.compare, [first], LATIN, Singletons(LATIN));
    LastIsLetter(library.compare, [first], PINYIN, pinyin);
  }

  /** Keys of a lower letter come before keys of a higher one, whatever follows. */
  lemma RanksOrderKeys(a: char, b: char, x: string, y: string)
    requires IsLetter(a) && IsLetter(b) && Rank(a) < Rank(b)
    ensures TextLess(TwoDigits(Rank(a)) + x, TwoDigits(Rank(b)) + y)
  {
    var p, q := TwoDigits(Rank(a)) + x, TwoDigits(Rank(b)) + y;
    if p[0] < q[0] {
      assert LessAt(CharLess, p, q, 0);
    } else {
      assert p[..1] == [p[0]] && q[..1] == [q[0]];
      assert LessAt(CharLess, p, q, 1);
    }
  }

  // ---------------------------------------------------------------------
  // Refreshing rows of older versions.
  // ---------------------------------------------------------------------

  datatype Game = Game(title: string, sortName: string, initial: char, key: string, version: int)

  /** A save stores the order of its title; rows of other versions come from older programs. */
  datatype Edit = Save(id: nat, title: string, sortName: string) | Delete(id: nat)

  datatype Pick = Pick(id: nat, title: string, sortName: string, order: Order)

  type Table = map<nat, Game>

  function Apply(library: Library, pinyin: seq<string>, table: Table, edits: seq<Edit>): Table
    requires |pinyin| == |PINYIN|
  {
    if edits == [] then table
    else
      var before := Apply(library, pinyin, table, edits[..|edits| - 1]);
      match edits[|edits| - 1]
      case Save(id, title, sortName) =>
        var order := Of(library, pinyin, title, sortName);
        before[id := Game(title, sortName, order.letter, order.key, VERSION)]
      case Delete(id) => before - {id}
  }

  predicate Current(library: Library, pinyin: seq<string>, game: Game)
    requires |pinyin| == |PINYIN|
  {
    game.version == VERSION && Order(game.initial, game.key) == Of(library, pinyin, game.title, game.sortName)
  }

  /** No row of this version has an order of another title. */
  ghost predicate Truthful(library: Library, pinyin: seq<string>, table: Table)
    requires |pinyin| == |PINYIN|
  {
    forall id | id in table :: table[id].version == VERSION ==> Current(library, pinyin, table[id])
  }

  function Stale(table: Table): set<nat> {
    set id | id in table && table[id].version != VERSION
  }

  /** Titles are what their last save made them. */
  ghost predicate SameTitles(a: Table, b: Table) {
    a.Keys == b.Keys && forall id | id in a :: a[id].title == b[id].title && a[id].sortName == b[id].sortName
  }

  lemma {:induction false} EditsKeep(library: Library, pinyin: seq<string>, table: Table, edits: seq<Edit>)
    requires |pinyin| == |PINYIN| && Truthful(library, pinyin, table)
    ensures Truthful(library, pinyin, Apply(library, pinyin, table, edits))
    ensures Stale(Apply(library, pinyin, table, edits)) <= Stale(table)
    ensures forall id | id in Stale(Apply(library, pinyin, table, edits)) ::
      Apply(library, pinyin, table, edits)[id] == table[id]
  {
    hide Of;
    if edits != [] {
      EditsKeep(library, pinyin, table, edits[..|edits| - 1]);
    }
  }

  lemma {:induction false} EditsAgree(library: Library, pinyin: seq<string>, a: Table, b: Table, edits: seq<Edit>)
    requires |pinyin| == |PINYIN| && SameTitles(a, b)
    ensures SameTitles(Apply(library, pinyin, a, edits), Apply(library, pinyin, b, edits))
  {
    hide Of;
    if edits != [] {
      EditsAgree(library, pinyin, a, b, edits[..|edits| - 1]);
    }
  }

  ghost predicate Picked(library: Library, pinyin: seq<string>, table: Table, picks: seq<Pick>)
    requires |pinyin| == |PINYIN|
  {
    && (forall i | 0 <= i < |picks| ::
          && picks[i].id in Stale(table) && picks[i].title == table[picks[i].id].title
          && picks[i].sortName == table[picks[i].id].sortName
          && picks[i].order == Of(library, pinyin, picks[i].title, picks[i].sortName))
    && forall i, j | 0 <= i < j < |picks| :: picks[i].id != picks[j].id
  }

  predicate Matches(game: Game, id: nat, pick: Pick) {
    pick.id == id && game.title == pick.title && game.sortName == pick.sortName && game.version != VERSION
  }

  /** The guarded update of one row: one saved since it was read is left alone. */
  function UpdateOne(table: Table, pick: Pick): Table {
    if pick.id in table && Matches(table[pick.id], pick.id, pick)
    then table[pick.id := table[pick.id].(initial := pick.order.letter, key := pick.order.key, version := VERSION)]
    else table
  }

  function Updated(table: Table, picks: seq<Pick>): Table {
    if picks == [] then table else UpdateOne(Updated(table, picks[..|picks| - 1]), picks[|picks| - 1])
  }

  lemma UpdateOneKeeps(library: Library, pinyin: seq<string>, table: Table, pick: Pick)
    requires |pinyin| == |PINYIN| && Truthful(library, pinyin, table)
    requires pick.order == Of(library, pinyin, pick.title, pick.sortName)
    ensures Truthful(library, pinyin, UpdateOne(table, pick)) && SameTitles(table, UpdateOne(table, pick))
  {
    hide Of;
  }

  lemma {:induction false} UpdateKeeps(library: Library, pinyin: seq<string>, table: Table, picks: seq<Pick>)
    requires |pinyin| == |PINYIN| && Truthful(library, pinyin, table)
    requires forall i | 0 <= i < |picks| :: picks[i].order == Of(library, pinyin, picks[i].title, picks[i].sortName)
    ensures Truthful(library, pinyin, Updated(table, picks)) && SameTitles(table, Updated(table, picks))
    ensures Stale(Updated(table, picks)) <= Stale(table)
    ensures forall id | id in Stale(Updated(table, picks)) :: Updated(table, picks)[id] == table[id]
  {
    hide Of, Truthful;
    UpdatedStale(table, picks);
    if picks != [] {
      UpdateKeeps(library, pinyin, table, picks[..|picks| - 1]);
      UpdateOneKeeps(library, pinyin, Updated(table, picks[..|picks| - 1]), picks[|picks| - 1]);
    }
  }

  /** Every row read is stale no longer: it was updated, or saved or deleted in between. */
  lemma {:induction false} PickedDone(table: Table, edited: Table, picks: seq<Pick>, i: nat)
    requires i < |picks|
    requires forall id | id in Stale(edited) :: id in table && edited[id] == table[id]
    requires picks[i].id in table && table[picks[i].id].title == picks[i].title
    requires table[picks[i].id].sortName == picks[i].sortName
    ensures picks[i].id !in Stale(Updated(edited, picks))
    decreases |picks|
  {
    var front := picks[..|picks| - 1];
    if i < |front| {
      PickedDone(table, edited, front, i);
    } else {
      UpdatedStale(edited, front);
    }
  }

  lemma {:induction false} UpdatedStale(table: Table, picks: seq<Pick>)
    ensures Stale(Updated(table, picks)) <= Stale(table)
    ensures forall id | id in Stale(Updated(table, picks)) :: Updated(table, picks)[id] == table[id]
  {
    if picks != [] {
      UpdatedStale(table, picks[..|picks| - 1]);
    }
  }

  // ---------------------------------------------------------------------
  // The tables a refresh goes through.
  // ---------------------------------------------------------------------

  /** Other requests' edits, or a guarded update with what some earlier table gave. */
  ghost predicate Statement(
    library: Library, pinyin: seq<string>, schedule: nat -> seq<Edit>, earlier: seq<Table>, b: Table)
    requires |pinyin| == |PINYIN| && earlier != []
  {
    var a := earlier[|earlier| - 1];
    || (exists n: nat :: b == Apply(library, pinyin, a, schedule(n)))
    || (exists read, picks :: read in earlier && Picked(library, pinyin, read, picks) && b == Updated(a, picks))
  }

  ghost predicate History(library: Library, pinyin: seq<string>, schedule: nat -> seq<Edit>, tables: seq<Table>)
    requires |pinyin| == |PINYIN|
  {
    forall i | 0 < i < |tables| :: Statement(library, pinyin, schedule, tables[..i], tables[i])
  }

  ghost predicate AllTruthful(library: Library, pinyin: seq<string>, tables: seq<Table>)
    requires |pinyin| == |PINYIN|
  {
    forall i | 0 <= i < |tables| :: Truthful(library, pinyin, tables[i])
  }

  /** The tables so far, from the first to the present one. */
  ghost predicate Recorded(
    library: Library, pinyin: seq<string>, schedule: nat -> seq<Edit>, tables: seq<Table>, first: Table, last: Table)
    requires |pinyin| == |PINYIN|
  {
    && tables != [] && tables[0] == first && tables[|tables| - 1] == last
    && History(library, pinyin, schedule, tables) && AllTruthful(library, pinyin, tables)
  }

  lemma RecordStarts(library: Library, pinyin: seq<string>, schedule: nat -> seq<Edit>, table: Table)
    requires |pinyin| == |PINYIN| && Truthful(library, pinyin, table)
    ensures Recorded(library, pinyin, schedule, [table], table, table)
  {
  }

  lemma RecordLast(
    library: Library, pinyin: seq<string>, schedule: nat -> seq<Edit>, tables: seq<Table>, first: Table, last: Table)
    requires |pinyin| == |PINYIN| && Recorded(library, pinyin, schedule, tables, first, last)
    ensures Truthful(library, pinyin, last) && last in tables
  {
  }

  lemma RecordExtends(
    library: Library, pinyin: seq<string>, schedule: nat -> seq<Edit>, tables: seq<Table>, first: Table, last: Table,
    next: Table)
    requires |pinyin| == |PINYIN| && Recorded(library, pinyin, schedule, tables, first, last)
    requires Statement(library, pinyin, schedule, tables, next) && Truthful(library, pinyin, next)
    ensures Recorded(library, pinyin, schedule, tables + [next], first, next)
  {
    hide Statement, Truthful;
    var all := tables + [next];
    forall i | 0 < i < |all| ensures Statement(library, pinyin, schedule, all[..i], all[i]) {
      assert all[..i] == tables[..if i < |tables| then i else |tables|];
      assert tables[..|tables|] == tables;
    }
  }

  class Games {
    var table: Table

    constructor (table: Table)
      ensures this.table == table
    {
      this.table := table;
    }

    /** At most `limit` rows of other versions, with the order of the title they had when read. */
    method SelectStale(library: Library, pinyin: seq<string>, limit: nat) returns (picks: seq<Pick>)
      requires |pinyin| == |PINYIN|
      ensures Picked(library, pinyin, table, picks)
      ensures |picks| == if |Stale(table)| <= limit then |Stale(table)| else limit
    {
      picks := [];
      var left := Stale(table);
      while left != {} && |picks| < limit
        invariant left <= Stale(table) && |picks| <= limit && |picks| + |left| == |Stale(table)|
        invariant Picked(library, pinyin, table, picks)
        invariant forall i | 0 <= i < |picks| :: picks[i].id !in left
        decreases |left|
      {
        var id :| id in left;
        var game := table[id];
        picks := picks + [Pick(id, game.title, game.sortName, Of(library, pinyin, game.title, game.sortName))];
        left := left - {id};
      }
    }

    method Interleave(library: Library, pinyin: seq<string>, edits: seq<Edit>)
      requires |pinyin| == |PINYIN|
      modifies this
      ensures table == Apply(library, pinyin, old(table), edits)
    {
      table := Apply(library, pinyin, table, edits);
    }

    /**
     With saves and deletions before every one of its statements, the refresh ends
     and leaves no row of another version. `tables` are the tables at each point in
     between; in none of them is there a row of this version with the order of a
     title it no longer has. It changes no title.
    */
    method RefreshTitleOrder(library: Library, pinyin: seq<string>, schedule: nat -> seq<Edit>)
      returns (refreshed: nat, pauses: nat, ghost tables: seq<Table>)
      requires |pinyin| == |PINYIN| && Truthful(library, pinyin, table)
      modifies this
      ensures Stale(table) == {}
      ensures tables != [] && tables[0] == old(table) && tables[|tables| - 1] == table
      ensures History(library, pinyin, schedule, tables) && AllTruthful(library, pinyin, tables)
      ensures SameTitles(table, Rounds(library, pinyin, old(table), schedule, pauses))
    {
      hide Of, History, AllTruthful, Truthful, SameTitles, Picked;
      refreshed, pauses, tables := 0, 0, [table];
      SameTitlesItself(table);
      RecordStarts(library, pinyin, schedule, table);
      while true
        invariant Recorded(library, pinyin, schedule, tables, old(table), table)
        invariant SameTitles(table, Rounds(library, pinyin, old(table), schedule, pauses))
        decreases |Stale(table)|
      {
        ghost var start := table;
        pauses, tables := Pause(library, pinyin, schedule, pauses, old(table), tables);
        var picks := SelectStale(library, pinyin, BATCH);
        if |picks| == 0 {
          return;
        }
        ghost var read := table;
        RecordLast(library, pinyin, schedule, tables, old(table), table);
        pauses, tables := Pause(library, pinyin, schedule, pauses, old(table), tables);
        ghost var edited := table;
        tables := UpdateBatch(library, pinyin, schedule, picks, read, old(table), tables);
        SameTitlesThrough(table, edited, Rounds(library, pinyin, old(table), schedule, pauses));
        FewerStale(start, edited, table, picks[0].id);
        refreshed := refreshed + |picks|;
      }
    }

    /** One guarded update for the rows read, which may have been saved or deleted since. */
    method UpdateBatch(
      library: Library, pinyin: seq<string>, ghost schedule: nat -> seq<Edit>, picks: seq<Pick>, ghost read: Table,
      ghost first: Table, ghost tables: seq<Table>)
      returns (ghost grown: seq<Table>)
      requires |pinyin| == |PINYIN| && picks != [] && Picked(library, pinyin, read, picks) && read in tables
      requires Recorded(library, pinyin, schedule, tables, first, table)
      requires Stale(table) <= Stale(read) && forall id | id in Stale(table) :: table[id] == read[id]
      modifies this
      ensures grown == tables + [table] && Recorded(library, pinyin, schedule, grown, first, table)
      ensures Stale(table) <= Stale(old(table)) && picks[0].id in Stale(read) && picks[0].id !in Stale(table)
      ensures SameTitles(old(table), table)
    {
      hide Of, History, AllTruthful, Truthful, SameTitles;
      RecordLast(library, pinyin, schedule, tables, first, table);
      UpdateKeeps(library, pinyin, table, picks);
      PickedDone(read, table, picks, 0);
      RecordExtends(library, pinyin, schedule, tables, first, table, Updated(table, picks));
      table := Updated(table, picks);
      grown := tables + [table];
    }

    /** The edits other requests make before the next statement. */
    method Pause(
      library: Library, pinyin: seq<string>, schedule: nat -> seq<Edit>, pauses: nat, ghost first: Table,
      ghost tables: seq<Table>)
      returns (next: nat, ghost grown: seq<Table>)
      requires |pinyin| == |PINYIN| && Recorded(library, pinyin, schedule, tables, first, table)
      requires SameTitles(table, Rounds(library, pinyin, first, schedule, pauses))
      modifies this
      ensures next == pauses + 1 && grown == tables + [table]
      ensures Recorded(library, pinyin, schedule, grown, first, table)
      ensures SameTitles(table, Rounds(library, pinyin, first, schedule, next))
      ensures Stale(table) <= Stale(old(table)) && forall id | id in Stale(table) :: table[id] == old(table)[id]
    {
      hide Of, History, AllTruthful, Truthful, SameTitles;
      RecordLast(library, pinyin, schedule, tables, first, table);
      EditsKeep(library, pinyin, table, schedule(pauses));
      EditsAgree(library, pinyin, table, Rounds(library, pinyin, first, schedule, pauses), schedule(pauses));
      RecordExtends(
        library, pinyin, schedule, tables, first, table, Apply(library, pinyin, table, schedule(pauses)));
      Interleave(library, pinyin, schedule(pauses));
      next, grown := pauses + 1, tables + [table];
    }
  }

  /** The table after the first `turns` rounds of edits alone. */
  function Rounds(library: Library, pinyin: seq<string>, table: Table, schedule: nat -> seq<Edit>, turns: nat): Table
    requires |pinyin| == |PINYIN|
  {
    if turns == 0 then table
    else Apply(library, pinyin, Rounds(library, pinyin, table, schedule, turns - 1), schedule(turns - 1))
  }

  lemma SameTitlesItself(table: Table)
    ensures SameTitles(table, table)
  {
  }

  lemma SameTitlesThrough(a: Table, b: Table, d: Table)
    requires SameTitles(b, a) && SameTitles(b, d)
    ensures SameTitles(a, d)
  {
  }

  lemma FewerStale(start: Table, edited: Table, after: Table, id: nat)
    requires Stale(edited) <= Stale(start) && Stale(after) <= Stale(edited)
    requires id in Stale(start) && id !in Stale(after)
    ensures |Stale(after)| < |Stale(start)|
  {
    assert Stale(after) <= Stale(start) - {id};
    Smaller(Stale(after), Stale(start) - {id});
  }

  lemma Smaller(a: set<nat>, b: set<nat>)
    requires a <= b
    ensures |a| <= |b|
  {
    assert |b - a| == |b| - |a|;
  }

  // ---------------------------------------------------------------------
  // The letter index.
  // ---------------------------------------------------------------------

  datatype LetterRow = LetterRow(letter: char, count: nat, first: string)

  datatype TitleLetter = TitleLetter(letter: char, count: nat, offset: nat)

  function Count(list: seq<Game>, letter: char): nat {
    if list == [] then 0 else Count(list[..|list| - 1], letter) + if list[|list| - 1].initial == letter then 1 else 0
  }

  /** Every row has its letter in its key, as a refreshed table's rows do. */
  ghost predicate Keyed(list: seq<Game>) {
    forall i | 0 <= i < |list| :: IsLetter(list[i].initial) && KeyOf(list[i])
  }

  ghost predicate KeyOf(game: Game)
    requires IsLetter(game.initial)
  {
    exists rest :: game.key == TwoDigits(Rank(game.initial)) + rest
  }

  /** The list in the order of key, title and id; only the key matters here. */
  ghost predicate ByKey(list: seq<Game>) {
    forall i, j | 0 <= i < j < |list| :: !TextLess(list[j].key, list[i].key)
  }

  ghost predicate FirstOf(list: seq<Game>, group: LetterRow) {
    && (exists k :: 0 <= k < |list| && list[k].initial == group.letter && list[k].key == group.first)
    && forall k | 0 <= k < |list| && list[k].initial == group.letter :: !TextLess(list[k].key, group.first)
  }

  ghost predicate HasGroup(groups: seq<LetterRow>, letter: char) {
    exists g :: 0 <= g < |groups| && groups[g].letter == letter
  }

  /** `SELECT letter, count(*), min(key) GROUP BY letter ORDER BY min(key)` over the same rows. */
  ghost predicate Grouped(list: seq<Game>, groups: seq<LetterRow>) {
    && (forall g | 0 <= g < |groups| :: groups[g].count == Count(list, groups[g].letter) && FirstOf(list, groups[g]))
    && (forall k | 0 <= k < |list| :: HasGroup(groups, list[k].initial))
    && (forall g, h | 0 <= g < h < |groups| :: groups[g].letter != groups[h].letter)
    && forall g, h | 0 <= g < h < |groups| :: NotAfter(groups[g], groups[h])
  }

  ghost predicate NotAfter(a: LetterRow, b: LetterRow) {
    !TextLess(b.first, a.first)
  }

  function Before(groups: seq<LetterRow>, n: nat): nat
    requires n <= |groups|
  {
    if n == 0 then 0 else Before(groups, n - 1) + groups[n - 1].count
  }

  function Letter(groups: seq<LetterRow>, g: nat): TitleLetter
    requires g < |groups|
  {
    TitleLetter(groups[g].letter, groups[g].count, Before(groups, g))
  }

  method GameLetters(groups: seq<LetterRow>) returns (letters: seq<TitleLetter>)
    ensures |letters| == |groups| && forall g | 0 <= g < |groups| :: letters[g] == Letter(groups, g)
  {
    letters := [];
    var offset, g := 0, 0;
    while g < |groups|
      invariant g <= |groups| && |letters| == g && offset == Before(groups, g)
      invariant forall k | 0 <= k < g :: letters[k] == Letter(groups, k)
    {
      letters := letters + [TitleLetter(groups[g].letter, groups[g].count, offset)];
      offset := offset + groups[g].count;
      g := g + 1;
    }
  }

  /** A current row has its letter in its key. */
  lemma CurrentIsKeyed(library: Library, pinyin: seq<string>, game: Game)
    requires |pinyin| == |PINYIN| && Current(library, pinyin, game)
    ensures IsLetter(game.initial) && KeyOf(game)
  {
    assert game.key == TwoDigits(Rank(game.initial)) + library.key(Source(library, game.title, game.sortName));
  }

  /** After a refresh every list of rows has its letters in its keys. */
  lemma RefreshedIsKeyed(library: Library, pinyin: seq<string>, table: Table, list: seq<Game>)
    requires |pinyin| == |PINYIN| && Truthful(library, pinyin, table) && Stale(table) == {}
    requires forall i | 0 <= i < |list| :: list[i] in table.Values
    ensures Keyed(list)
  {
    hide Of, Rank;
    forall i | 0 <= i < |list| ensures IsLetter(list[i].initial) && KeyOf(list[i]) {
      var id :| id in table && table[id] == list[i];
      assert id !in Stale(table);
      CurrentIsKeyed(library, pinyin, list[i]);
    }
  }

  /** Keys order rows by letter. */
  lemma KeysOrderLetters(a: Game, b: Game)
    requires IsLetter(a.initial) && IsLetter(b.initial) && KeyOf(a) && KeyOf(b) && !TextLess(b.key, a.key)
    ensures Rank(a.initial) <= Rank(b.initial)
  {
    var x :| a.key == TwoDigits(Rank(a.initial)) + x;
    var y :| b.key == TwoDigits(Rank(b.initial)) + y;
    if Rank(b.initial) < Rank(a.initial) {
      RanksOrderKeys(b.initial, a.initial, y, x);
    }
  }

  lemma RanksDiffer(a: char, b: char)
    requires IsLetter(a) && IsLetter(b)
    ensures Rank(a) == Rank(b) <==> a == b
  {
  }

  /** How many rows have a letter of lower rank. */
  function Below(list: seq<Game>, rank: nat): nat
    requires forall i | 0 <= i < |list| :: IsLetter(list[i].initial)
    ensures Below(list, rank) <= |list|
  {
    if list == [] then 0
    else Below(list[..|list| - 1], rank) + if Rank(list[|list| - 1].initial) < rank then 1 else 0
  }

  ghost predicate RanksAscend(list: seq<Game>)
    requires forall i | 0 <= i < |list| :: IsLetter(list[i].initial)
  {
    forall i, j | 0 <= i < j < |list| :: Rank(list[i].initial) <= Rank(list[j].initial)
  }

  lemma ListAscends(list: seq<Game>)
    requires Keyed(list) && ByKey(list)
    ensures RanksAscend(list)
  {
    hide TextLess, KeyOf, Rank;
    forall i, j | 0 <= i < j < |list| ensures Rank(list[i].initial) <= Rank(list[j].initial) {
      KeysOrderLetters(list[i], list[j]);
    }
  }

  /** In such a list the rows of lower rank are a prefix, and those of one rank the block after it. */
  lemma {:induction false} BelowIsPrefix(list: seq<Game>, rank: nat, k: nat)
    requires (forall i | 0 <= i < |list| :: IsLetter(list[i].initial)) && RanksAscend(list) && k < |list|
    ensures Rank(list[k].initial) < rank <==> k < Below(list, rank)
    decreases |list|
  {
    hide Rank;
    var front, last := list[..|list| - 1], list[|list| - 1];
    if k < |front| {
      BelowIsPrefix(front, rank, k);
      AllBelow(front, rank, last);
    } else if |front| > 0 {
      AllBelow(front, rank, last);
    }
  }

  lemma {:induction false} AllBelow(list: seq<Game>, rank: nat, last: Game)
    requires (forall i | 0 <= i < |list| :: IsLetter(list[i].initial)) && IsLetter(last.initial)
    requires forall i | 0 <= i < |list| :: Rank(list[i].initial) <= Rank(last.initial)
    ensures Rank(last.initial) < rank ==> Below(list, rank) == |list|
  {
    hide Rank;
    if list != [] {
      AllBelow(list[..|list| - 1], rank, last);
    }
  }

  lemma {:induction false} BelowNext(list: seq<Game>, letter: char)
    requires (forall i | 0 <= i < |list| :: IsLetter(list[i].initial)) && IsLetter(letter)
    ensures Below(list, Rank(letter) + 1) == Below(list, Rank(letter)) + Count(list, letter)
  {
    if list != [] {
      BelowNext(list[..|list| - 1], letter);
      RanksDiffer(list[|list| - 1].initial, letter);
    }
  }

  lemma {:induction false} BelowSame(list: seq<Game>, low: nat, high: nat)
    requires forall i | 0 <= i < |list| :: IsLetter(list[i].initial)
    requires low <= high && forall i | 0 <= i < |list| :: Rank(list[i].initial) < low || high <= Rank(list[i].initial)
    ensures Below(list, low) == Below(list, high)
  {
    if list != [] {
      BelowSame(list[..|list| - 1], low, high);
    }
  }

  lemma GroupLetter(list: seq<Game>, groups: seq<LetterRow>, g: nat)
    requires Keyed(list) && Grouped(list, groups) && g < |groups|
    ensures IsLetter(groups[g].letter)
  {
    hide KeyOf, TextLess, Rank;
    assert FirstOf(list, groups[g]);
    var k :| 0 <= k < |list| && list[k].initial == groups[g].letter && list[k].key == groups[g].first;
  }

  lemma GroupsAscend(list: seq<Game>, groups: seq<LetterRow>, g: nat, h: nat)
    requires Keyed(list) && Grouped(list, groups) && g < h < |groups|
    ensures IsLetter(groups[g].letter) && IsLetter(groups[h].letter)
    ensures Rank(groups[g].letter) < Rank(groups[h].letter)
  {
    hide TextLess, KeyOf, Rank;
    GroupLetter(list, groups, g);
    GroupLetter(list, groups, h);
    assert FirstOf(list, groups[g]) && FirstOf(list, groups[h]) && NotAfter(groups[g], groups[h]);
    var i :| 0 <= i < |list| && list[i].initial == groups[g].letter && list[i].key == groups[g].first;
    var j :| 0 <= j < |list| && list[j].initial == groups[h].letter && list[j].key == groups[h].first;
    KeysOrderLetters(list[i], list[j]);
    RanksDiffer(groups[g].letter, groups[h].letter);
  }

  /** The offset of a letter is the number of rows of lower rank. */
  lemma {:induction false} OffsetIsBelow(list: seq<Game>, groups: seq<LetterRow>, g: nat)
    requires Keyed(list) && Grouped(list, groups) && g < |groups|
    ensures IsLetter(groups[g].letter) && Before(groups, g) == Below(list, Rank(groups[g].letter))
  {
    hide TextLess, KeyOf, Rank, FirstOf;
    GroupLetter(list, groups, g);
    if g > 0 {
      GroupLetter(list, groups, g - 1);
    }
    var low := if g == 0 then 0 else Rank(groups[g - 1].letter) + 1;
    if g > 0 {
      OffsetIsBelow(list, groups, g - 1);
      BelowNext(list, groups[g - 1].letter);
      GroupsAscend(list, groups, g - 1, g);
    } else {
      NoneBelow(list);
    }
    forall i | 0 <= i < |list| ensures Rank(list[i].initial) < low || Rank(groups[g].letter) <= Rank(list[i].initial) {
      NoLetterBetween(list, groups, g, i);
    }
    BelowSame(list, low, Rank(groups[g].letter));
  }

  lemma {:induction false} NoneBelow(list: seq<Game>)
    requires forall i | 0 <= i < |list| :: IsLetter(list[i].initial)
    ensures Below(list, 0) == 0
  {
    if list != [] {
      NoneBelow(list[..|list| - 1]);
    }
  }

  lemma GroupOfRow(list: seq<Game>, groups: seq<LetterRow>, i: nat) returns (h: nat)
    requires Grouped(list, groups) && i < |list|
    ensures h < |groups| && groups[h].letter == list[i].initial
  {
    assert HasGroup(groups, list[i].initial);
    h :| 0 <= h < |groups| && groups[h].letter == list[i].initial;
  }

  lemma NoLetterBetween(list: seq<Game>, groups: seq<LetterRow>, g: nat, i: nat)
    requires Keyed(list) && Grouped(list, groups) && g < |groups| && i < |list|
    ensures IsLetter(groups[g].letter) && (g > 0 ==> IsLetter(groups[g - 1].letter))
    ensures (g > 0 && Rank(list[i].initial) <= Rank(groups[g - 1].letter))
      || Rank(groups[g].letter) <= Rank(list[i].initial)
  {
    hide TextLess, KeyOf, Rank, FirstOf;
    GroupLetter(list, groups, g);
    if g > 0 {
      GroupLetter(list, groups, g - 1);
    }
    var h := GroupOfRow(list, groups, i);
    if h < g {
      if h < g - 1 {
        GroupsAscend(list, groups, h, g - 1);
      }
    } else if h > g {
      GroupsAscend(list, groups, g, h);
    }
  }

  /**
   For any filter: in the list ordered by key, title and id, the rows of a
   reported letter are exactly those from its offset on, as many as its count.
  */
  lemma LettersAreBlocks(list: seq<Game>, groups: seq<LetterRow>, g: nat, k: nat)
    requires Keyed(list) && ByKey(list) && Grouped(list, groups) && g < |groups| && k < |list|
    ensures list[k].initial == groups[g].letter <==> Before(groups, g) <= k < Before(groups, g) + groups[g].count
    ensures Before(groups, g) + groups[g].count <= |list|
  {
    hide TextLess, KeyOf, Rank, FirstOf, Grouped, ByKey;
    GroupLetter(list, groups, g);
    ListAscends(list);
    var rank := Rank(groups[g].letter);
    OffsetIsBelow(list, groups, g);
    BelowNext(list, groups[g].letter);
    GroupCount(list, groups, g);
    BelowIsPrefix(list, rank, k);
    BelowIsPrefix(list, rank + 1, k);
    RanksDiffer(list[k].initial, groups[g].letter);
  }

  lemma GroupCount(list: seq<Game>, groups: seq<LetterRow>, g: nat)
    requires Grouped(list, groups) && g < |groups|
    ensures groups[g].count == Count(list, groups[g].letter)
  {
  }

  /** The counts cover the whole list. */
  lemma LettersCoverList(list: seq<Game>, groups: seq<LetterRow>)
    requires Keyed(list) && Grouped(list, groups)
    ensures Before(groups, |groups|) == |list|
  {
    hide TextLess, KeyOf, Rank, FirstOf;
    if groups == [] {
      if list != [] {
        NoRowWithoutGroup(list, groups);
      }
    } else {
      var g := |groups| - 1;
      OffsetIsBelow(list, groups, g);
      BelowNext(list, groups[g].letter);
      forall i | 0 <= i < |list| ensures Rank(list[i].initial) < Rank(groups[g].letter) + 1 {
        var h := GroupOfRow(list, groups, i);
        if h < g {
          GroupsAscend(list, groups, h, g);
        }
      }
      EveryBelow(list, Rank(groups[g].letter) + 1);
    }
  }

  lemma NoRowWithoutGroup(list: seq<Game>, groups: seq<LetterRow>)
    requires Grouped(list, groups) && list != []
    ensures groups != []
  {
    assert HasGroup(groups, list[0].initial);
  }

  lemma {:induction false} EveryBelow(list: seq<Game>, rank: nat)
    requires forall i | 0 <= i < |list| :: IsLetter(list[i].initial) && Rank(list[i].initial) < rank
    ensures Below(list, rank) == |list|
  {
    if list != [] {
      EveryBelow(list[..|list| - 1], rank);
    }
  }
}
