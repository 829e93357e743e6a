/**
 Canonical JSON (`scripts/runtime_provider_contract.py:103-107, 728-752`): the
 bytes of a value say exactly which value it is, key order aside.
*/
module Canonical {
  import opened Versions
  import opened CanonicalText
  import opened Sorting

  datatype Key = TextKey(text: Text) | OtherKey

  datatype Member = Member(key: Key, value: Json)

  /** A Python value; a dict's members are in insertion order. */
  datatype Json =
    | Null | Boolean(b: bool) | Integer(n: int) | Float | String(text: Text)
    | Array(items: seq<Json>) | Object(members: seq<Member>) | Unsupported

  const SAFE_INTEGER := 9_007_199_254_740_991

  const COMMA: CodePoint := 0x2C
  const COLON: CodePoint := 0x3A
  const OPEN_LIST: CodePoint := 0x5B
  const CLOSE_LIST: CodePoint := 0x5D
  const OPEN_MAP: CodePoint := 0x7B
  const CLOSE_MAP: CodePoint := 0x7D
  const NULL: Text := [0x6E, 0x75, 0x6C, 0x6C]
  const TRUE: Text := [0x74, 0x72, 0x75, 0x65]
  const FALSE: Text := [0x66, 0x61, 0x6C, 0x73, 0x65]

  /** The keys of a dict are distinct. */
  ghost predicate Proper(v: Json) {
    match v
    case Array(items) => forall i | 0 <= i < |items| :: Proper(items[i])
    case Object(members) =>
      && (forall i | 0 <= i < |members| :: Proper(members[i].value))
      && (forall i, j | 0 <= i < j < |members| :: members[i].key != members[j].key)
    case _ => true
  }

  /** No float, no integer out of range, no key but a string, nothing json does not know. */
  predicate Supported(v: Json) {
    match v
    case Integer(n) => -SAFE_INTEGER <= n <= SAFE_INTEGER
    case Array(items) => forall i | 0 <= i < |items| :: Supported(items[i])
    case Object(members) => forall i | 0 <= i < |members| :: members[i].key.TextKey? && Supported(members[i].value)
    case Float => false
    case Unsupported => false
    case _ => true
  }

  // ---------------------------------------------------------------------
  // The printer.
  // ---------------------------------------------------------------------

  /** One `key: value` of an object, its value printed. */
  datatype Entry = Entry(key: Text, text: Text)

  function KeyOrder(a: Entry, b: Entry): int {
    CompareNumbers(KeyBytes(a.key), KeyBytes(b.key))
  }

  /** sorted, by the encodings of the keys. */
  function Sorted(entries: seq<Entry>): seq<Entry> {
    Sort(KeyOrder, entries)
  }

  function Line(e: Entry): Text {
    Quoted(e.key) + [COLON] + e.text
  }

  function Lines(entries: seq<Entry>): (r: seq<Text>)
    ensures |r| == |entries| && forall i | 0 <= i < |r| :: r[i] == Line(entries[i])
  {
    seq(|entries|, i requires 0 <= i < |entries| => Line(entries[i]))
  }

  /** `",".join(texts)`. */
  function Join(texts: seq<Text>): Text
    decreases |texts|, 0
  {
    if texts == [] then [] else texts[0] + Tail(texts[1..])
  }

  function Tail(texts: seq<Text>): Text
    decreases |texts|, 1
  {
    if texts == [] then [] else [COMMA] + Join(texts)
  }

  function Render(v: Json): Text
    requires Supported(v)
    decreases v
  {
    match v
    case Null => NULL
    case Boolean(b) => if b then TRUE else FALSE
    case Integer(n) => IntegerText(n)
    case String(text) => Quoted(text)
    case Array(items) => [OPEN_LIST] + Join(seq(|items|, i requires 0 <= i < |items| => Render(items[i]))) + [CLOSE_LIST]
    case Object(members) =>
      [OPEN_MAP]
      + Join(Lines(Sorted(seq(|members|, i requires 0 <= i < |members| =>
                          Entry(members[i].key.text, Render(members[i].value))))))
      + [CLOSE_MAP]
  }

  function Canonical(v: Json): Result<Text> {
    if Supported(v) then Ok(Render(v)) else Failure("CONTRACT")
  }

  /** encode("utf-8") refuses surrogates. */
  function CanonicalBytes(v: Json): Result<seq<nat>> {
    if Supported(v) && SurrogateFree(Render(v)) then Ok(Utf8All(Render(v))) else Failure("CONTRACT")
  }

  function Texts(items: seq<Json>): (r: seq<Text>)
    requires forall i | 0 <= i < |items| :: Supported(items[i])
    ensures |r| == |items| && forall i | 0 <= i < |r| :: r[i] == Render(items[i])
  {
    seq(|items|, i requires 0 <= i < |items| => Render(items[i]))
  }

  function Entries(members: seq<Member>): (r: seq<Entry>)
    requires forall i | 0 <= i < |members| :: members[i].key.TextKey? && Supported(members[i].value)
    ensures |r| == |members|
    ensures forall i | 0 <= i < |r| :: r[i] == Entry(members[i].key.text, Render(members[i].value))
  {
    seq(|members|, i requires 0 <= i < |members| => Entry(members[i].key.text, Render(members[i].value)))
  }

  lemma RenderArray(items: seq<Json>)
    requires Supported(Array(items))
    ensures Render(Array(items)) == [OPEN_LIST] + Join(Texts(items)) + [CLOSE_LIST]
  {
    assert Texts(items) == seq(|items|, i requires 0 <= i < |items| => Render(items[i]));
  }

  lemma RenderObject(members: seq<Member>)
    requires Supported(Object(members))
    ensures Render(Object(members)) == [OPEN_MAP] + Join(Lines(Sorted(Entries(members)))) + [CLOSE_MAP]
  {
    assert Entries(members)
        == seq(|members|, i requires 0 <= i < |members| => Entry(members[i].key.text, Render(members[i].value)));
  }

  // ---------------------------------------------------------------------
  // Unique decodability: what is printed can be told from what follows it.
  // ---------------------------------------------------------------------

  ghost predicate Rendered(t: Text) {
    exists v :: Supported(v) && Render(v) == t
  }

  /** First characters: 0 null, 1 true, 2 false, 3 integer, 4 string, 5 list, 6 object. */
  function KindOf(c: CodePoint): nat {
    if c == 0x6E then 0 else if c == 0x74 then 1 else if c == 0x66 then 2
    else if c == 0x2D || Digit(c) then 3 else if c == QUOTE then 4 else if c == OPEN_LIST then 5
    else if c == OPEN_MAP then 6 else 7
  }

  function Kind(v: Json): nat {
    match v
    case Null => 0 case Boolean(b) => if b then 1 else 2 case Integer(_) => 3 case String(_) => 4
    case Array(_) => 5 case Object(_) => 6 case _ => 7
  }

  lemma FirstCharacter(v: Json, r: Text)
    requires Supported(v)
    ensures Render(v) != [] && (Render(v) + r)[0] == Render(v)[0] && KindOf(Render(v)[0]) == Kind(v)
  {
    match v
    case Integer(n) => DigitsAreDigits(if n < 0 then -n else n);
    case Array(items) => RenderArray(items);
    case Object(members) => RenderObject(members);
    case _ =>
  }

  lemma RenderedStarts(t: Text, r: Text)
    requires Rendered(t)
    ensures t != [] && (t + r)[0] == t[0] && KindOf(t[0]) < 7
  {
    var v :| Supported(v) && Render(v) == t;
    FirstCharacter(v, r);
  }

  lemma SameLength(a: Text, b: Text, r: Text, s: Text)
    requires a + r == b + s && |a| == |b|
    ensures a == b && r == s
  {
    assert (a + r)[..|a|] == a && (a + r)[|a|..] == r && (b + s)[..|b|] == b && (b + s)[|b|..] == s;
  }

  lemma {:induction false} RenderedUnique(t: Text, u: Text, r: Text, s: Text)
    requires Rendered(t) && Rendered(u) && t + r == u + s && Ends(r) && Ends(s)
    ensures t == u && r == s
    decreases |t + r|, 1
  {
    var v :| Supported(v) && Render(v) == t;
    var w :| Supported(w) && Render(w) == u;
    FirstCharacter(v, r);
    FirstCharacter(w, s);
    assert Kind(v) == Kind(w);
    match v
    case Integer(n) => IntegerUnique(n, w.n, r, s);
    case String(text) => QuotedUnique(text, w.text, r, s);
    case Array(items) =>
      RenderArray(items);
      RenderArray(w.items);
      Inner(t, u, r, s, Join(Texts(items)), Join(Texts(w.items)), OPEN_LIST, CLOSE_LIST);
      ListUnique(Texts(items), Texts(w.items), r, s);
    case Object(members) =>
      RenderObject(members);
      RenderObject(w.members);
      var x, y := Sorted(Entries(members)), Sorted(Entries(w.members));
      Inner(t, u, r, s, Join(Lines(x)), Join(Lines(y)), OPEN_MAP, CLOSE_MAP);
      SortedRendered(members);
      SortedRendered(w.members);
      ObjectUnique(x, y, r, s);
    case Null => SameLength(t, u, r, s);
    case Boolean(_) => SameLength(t, u, r, s);
    case _ =>
  }

  lemma Regroup(a: Text, b: Text, c: Text, d: Text)
    ensures a + b + c + d == a + (b + c + d)
  {
  }

  lemma Inner(t: Text, u: Text, r: Text, s: Text, x: Text, y: Text, open: CodePoint, close: CodePoint)
    requires t == [open] + x + [close] && u == [open] + y + [close] && t + r == u + s
    ensures x + [close] + r == y + [close] + s && |x + [close] + r| < |t + r|
  {
    assert (t + r)[1..] == x + [close] + r && (u + s)[1..] == y + [close] + s;
  }

  ghost predicate AllRendered(texts: seq<Text>) {
    forall i | 0 <= i < |texts| :: Rendered(texts[i])
  }

  ghost predicate EntriesRendered(entries: seq<Entry>) {
    forall i | 0 <= i < |entries| :: Rendered(entries[i].text)
  }

  lemma {:induction false} ListUnique(a: seq<Text>, b: seq<Text>, r: Text, s: Text)
    requires AllRendered(a) && AllRendered(b)
    requires Join(a) + [CLOSE_LIST] + r == Join(b) + [CLOSE_LIST] + s
    ensures a == b && r == s
    decreases |Join(a) + [CLOSE_LIST] + r|, 2
  {
    hide Join, Tail, Rendered, Ends;
    JoinStarts(a, r);
    JoinStarts(b, s);
    if a != [] {
      var p, q := Tail(a[1..]) + [CLOSE_LIST] + r, Tail(b[1..]) + [CLOSE_LIST] + s;
      JoinSplits(a, CLOSE_LIST, r);
      JoinSplits(b, CLOSE_LIST, s);
      TailEnds(a[1..], CLOSE_LIST, r);
      TailEnds(b[1..], CLOSE_LIST, s);
      RenderedUnique(a[0], b[0], p, q);
      RenderedStarts(a[0], p);
      TailUnique(a[1..], b[1..], r, s);
      assert a == [a[0]] + a[1..] && b == [b[0]] + b[1..];
    }
  }

  lemma JoinSplits(a: seq<Text>, close: CodePoint, r: Text)
    requires a != []
    ensures Join(a) + [close] + r == a[0] + (Tail(a[1..]) + [close] + r)
  {
    Regroup(a[0], Tail(a[1..]), [close], r);
  }

  lemma JoinStarts(a: seq<Text>, r: Text)
    requires AllRendered(a)
    ensures (Join(a) + [CLOSE_LIST] + r)[0] == CLOSE_LIST <==> a == []
    ensures a == [] ==> (Join(a) + [CLOSE_LIST] + r)[1..] == r
  {
    if a != [] {
      RenderedStarts(a[0], Tail(a[1..]) + [CLOSE_LIST] + r);
      Regroup(a[0], Tail(a[1..]), [CLOSE_LIST], r);
    }
  }

  lemma TailEnds(a: seq<Text>, close: CodePoint, r: Text)
    requires close == CLOSE_LIST || close == CLOSE_MAP
    ensures Ends(Tail(a) + [close] + r)
    ensures (Tail(a) + [close] + r)[0] == (if a == [] then close else COMMA)
    ensures (Tail(a) + [close] + r)[1..] == if a == [] then r else Join(a) + [close] + r
  {
    if a != [] {
      Regroup([COMMA], Join(a), [close], r);
    }
  }

  lemma {:induction false} TailUnique(a: seq<Text>, b: seq<Text>, r: Text, s: Text)
    requires AllRendered(a) && AllRendered(b)
    requires Tail(a) + [CLOSE_LIST] + r == Tail(b) + [CLOSE_LIST] + s
    ensures a == b && r == s
    decreases |Tail(a) + [CLOSE_LIST] + r|, 3
  {
    TailEnds(a, CLOSE_LIST, r);
    TailEnds(b, CLOSE_LIST, s);
    if a != [] {
      assert |Join(a) + [CLOSE_LIST] + r| == |Tail(a) + [CLOSE_LIST] + r| - 1;
      ListUnique(a, b, r, s);
    }
  }

  lemma {:induction false} ObjectUnique(x: seq<Entry>, y: seq<Entry>, r: Text, s: Text)
    requires EntriesRendered(x) && EntriesRendered(y)
    requires Join(Lines(x)) + [CLOSE_MAP] + r == Join(Lines(y)) + [CLOSE_MAP] + s
    ensures x == y && r == s
    decreases |Join(Lines(x)) + [CLOSE_MAP] + r|, 2
  {
    hide Join, Tail, Rendered, Ends, Quoted;
    LinesStart(x, r);
    LinesStart(y, s);
    if x != [] {
      var p, q := Tail(Lines(x)[1..]) + [CLOSE_MAP] + r, Tail(Lines(y)[1..]) + [CLOSE_MAP] + s;
      TailEnds(Lines(x)[1..], CLOSE_MAP, r);
      TailEnds(Lines(y)[1..], CLOSE_MAP, s);
      QuotedUnique(x[0].key, y[0].key, [COLON] + x[0].text + p, [COLON] + y[0].text + q);
      AfterColon(x[0].text, p);
      AfterColon(y[0].text, q);
      RenderedUnique(x[0].text, y[0].text, p, q);
      assert Lines(x[1..]) == Lines(x)[1..] && Lines(y[1..]) == Lines(y)[1..];
      if |x| > 1 {
        ObjectUnique(x[1..], y[1..], r, s);
      }
      assert x == [x[0]] + x[1..] && y == [y[0]] + y[1..];
    }
  }

  lemma AfterColon(text: Text, p: Text)
    ensures ([COLON] + text + p)[1..] == text + p
  {
  }

  lemma LinesStart(x: seq<Entry>, r: Text)
    ensures var left := Join(Lines(x)) + [CLOSE_MAP] + r;
            if x == [] then left[0] == CLOSE_MAP && left[1..] == r
            else
              var p := Tail(Lines(x)[1..]) + [CLOSE_MAP] + r;
              && left[0] == QUOTE && left == Quoted(x[0].key) + ([COLON] + x[0].text + p)
              && |left| > |x[0].text + p| >= |p|
  {
    if x != [] {
      hide Tail;
      var e, rest := x[0], Tail(Lines(x)[1..]);
      JoinSplits(Lines(x), CLOSE_MAP, r);
      Regroup(Quoted(e.key), [COLON], e.text, rest + [CLOSE_MAP] + r);
    }
  }

  // ---------------------------------------------------------------------
  // Sorting.
  // ---------------------------------------------------------------------

  lemma SortedMember(entries: seq<Entry>, e: Entry)
    ensures e in Sorted(entries) <==> e in entries
    ensures |Sorted(entries)| == |entries|
  {
    SortMember(KeyOrder, entries, e);
  }

  lemma SortedRendered(members: seq<Member>)
    requires Supported(Object(members))
    ensures EntriesRendered(Sorted(Entries(members)))
  {
    var x := Sorted(Entries(members));
    forall i | 0 <= i < |x| ensures Rendered(x[i].text) {
      SortedMember(Entries(members), x[i]);
      var k :| 0 <= k < |members| && Entries(members)[k] == x[i];
      assert Supported(members[k].value) && Render(members[k].value) == x[i].text;
    }
  }

  // ---------------------------------------------------------------------
  // Equal but for the order of keys.
  // ---------------------------------------------------------------------

  ghost predicate Alike(v: Json, w: Json)
    decreases v
  {
    match (v, w)
    case (Array(a), Array(b)) => |a| == |b| && forall i | 0 <= i < |a| :: Alike(a[i], b[i])
    case (Object(a), Object(b)) =>
      |a| == |b| && forall i | 0 <= i < |a| :: exists j ::
        0 <= j < |b| && a[i].key == b[j].key && Alike(a[i].value, b[j].value)
    case _ => v == w
  }

  /** Equal texts are of equal values. */
  lemma {:induction false} RenderInjective(v: Json, w: Json)
    requires Supported(v) && Supported(w) && Render(v) == Render(w)
    ensures Alike(v, w)
    decreases v
  {
    FirstCharacter(v, []);
    FirstCharacter(w, []);
    match v
    case Integer(n) =>
      assert IntegerText(n) + [] == IntegerText(w.n) + [];
      IntegerUnique(n, w.n, [], []);
    case String(text) =>
      assert Quoted(text) + [] == Quoted(w.text) + [];
      QuotedUnique(text, w.text, [], []);
    case Array(items) =>
      ArrayTexts(items, w.items);
      forall i | 0 <= i < |items| ensures Alike(items[i], w.items[i]) {
        RenderInjective(items[i], w.items[i]);
      }
    case Object(members) =>
      ObjectEntries(members, w.members);
      forall i | 0 <= i < |members| ensures exists j ::
        0 <= j < |w.members| && members[i].key == w.members[j].key && Alike(members[i].value, w.members[j].value)
      {
        var j := SameEntry(members, w.members, i);
        RenderInjective(members[i].value, w.members[j].value);
      }
    case _ =>
  }

  lemma ArrayTexts(a: seq<Json>, b: seq<Json>)
    requires Supported(Array(a)) && Supported(Array(b)) && Render(Array(a)) == Render(Array(b))
    ensures Texts(a) == Texts(b)
  {
    RenderArray(a);
    RenderArray(b);
    var t, u := Render(Array(a)), Render(Array(b));
    Inner(t, u, [], [], Join(Texts(a)), Join(Texts(b)), OPEN_LIST, CLOSE_LIST);
    ListUnique(Texts(a), Texts(b), [], []);
  }

  lemma ObjectEntries(a: seq<Member>, b: seq<Member>)
    requires Supported(Object(a)) && Supported(Object(b)) && Render(Object(a)) == Render(Object(b))
    ensures Sorted(Entries(a)) == Sorted(Entries(b)) && |a| == |b|
  {
    RenderObject(a);
    RenderObject(b);
    var t, u := Render(Object(a)), Render(Object(b));
    var x, y := Sorted(Entries(a)), Sorted(Entries(b));
    Inner(t, u, [], [], Join(Lines(x)), Join(Lines(y)), OPEN_MAP, CLOSE_MAP);
    SortedRendered(a);
    SortedRendered(b);
    ObjectUnique(x, y, [], []);
    SortedMember(Entries(a), Entry([], []));
    SortedMember(Entries(b), Entry([], []));
  }

  lemma SameEntry(a: seq<Member>, b: seq<Member>, i: nat) returns (j: nat)
    requires Supported(Object(a)) && Supported(Object(b)) && Sorted(Entries(a)) == Sorted(Entries(b)) && i < |a|
    ensures j < |b| && a[i].key == b[j].key && Render(a[i].value) == Render(b[j].value)
  {
    SortedMember(Entries(a), Entries(a)[i]);
    SortedMember(Entries(b), Entries(a)[i]);
    j :| 0 <= j < |b| && Entries(b)[j] == Entries(a)[i];
  }

  // ---------------------------------------------------------------------
  // Sorting forgets the insertion order when the encodings of keys differ.
  // ---------------------------------------------------------------------

  ghost predicate KeysApart(entries: seq<Entry>) {
    forall i, j | 0 <= i < j < |entries| :: KeyBytes(entries[i].key) != KeyBytes(entries[j].key)
  }

  lemma KeyOrderLaws(a: Entry, b: Entry, d: Entry)
    ensures KeyOrder(a, b) == 0 <==> KeyBytes(a.key) == KeyBytes(b.key)
    ensures KeyOrder(a, b) < 0 <==> KeyOrder(b, a) > 0
    ensures KeyOrder(a, b) < 0 && KeyOrder(b, d) < 0 ==> KeyOrder(a, d) < 0
  {
    hide KeyBytes;
    NumberOrderLaws(KeyBytes(a.key), KeyBytes(b.key), KeyBytes(d.key));
  }

  lemma SortForgets(a: seq<Entry>, b: seq<Entry>)
    requires KeysApart(a) && KeysApart(b) && SameMembers(a, b)
    ensures Sorted(a) == Sorted(b)
  {
    hide KeyOrder, KeyBytes, Sort;
    forall x, y, z
      ensures KeyOrder(x, y) < 0 <==> KeyOrder(y, x) > 0
      ensures KeyOrder(x, y) < 0 && KeyOrder(y, z) < 0 ==> KeyOrder(x, z) < 0
      ensures KeyOrder(x, y) == 0 <==> KeyBytes(x.key) == KeyBytes(y.key)
    {
      KeyOrderLaws(x, y, z);
    }
    SortForgetsOrder(KeyOrder, a, b);
  }

  lemma InsertAhead(e: Entry, d: Entry)
    requires KeyBytes(e.key) == KeyBytes(d.key)
    ensures Sorted([e, d]) == [e, d]
  {
    KeyOrderLaws(e, d, d);
    hide KeyOrder;
    assert [e, d][1..] == [d] && [d][1..] == [];
    assert Sort(KeyOrder, [d]) == [d];
  }

  // ---------------------------------------------------------------------
  // Key order never shows in the bytes.
  // ---------------------------------------------------------------------

  /** No string of the value has a surrogate. */
  predicate Plain(v: Json) {
    match v
    case String(text) => SurrogateFree(text)
    case Array(items) => forall i | 0 <= i < |items| :: Plain(items[i])
    case Object(members) =>
      forall i | 0 <= i < |members| ::
        (members[i].key.TextKey? ==> SurrogateFree(members[i].key.text)) && Plain(members[i].value)
    case _ => true
  }

  lemma {:induction false} JoinPlain(texts: seq<Text>)
    ensures SurrogateFree(Join(texts)) <==> forall i | 0 <= i < |texts| :: SurrogateFree(texts[i])
    decreases |texts|
  {
    if texts != [] {
      JoinPlain(texts[1..]);
      SurrogateFreeAppend(texts[0], Tail(texts[1..]));
      SurrogateFreeAppend([COMMA], Join(texts[1..]));
      assert forall i | 0 < i < |texts| :: texts[i] == texts[1..][i - 1];
      assert (forall i | 0 <= i < |texts[1..]| :: SurrogateFree(texts[1..][i]))
          == forall i | 0 < i < |texts| :: SurrogateFree(texts[i]);
    }
  }

  lemma Bracketed(open: CodePoint, inner: Text, close: CodePoint)
    requires !Surrogate(open) && !Surrogate(close)
    ensures SurrogateFree([open] + inner + [close]) <==> SurrogateFree(inner)
  {
    SurrogateFreeAppend([open] + inner, [close]);
    SurrogateFreeAppend([open], inner);
  }

  lemma LinePlain(e: Entry)
    ensures SurrogateFree(Line(e)) <==> SurrogateFree(e.key) && SurrogateFree(e.text)
  {
    SurrogateFreeAppend(Quoted(e.key) + [COLON], e.text);
    SurrogateFreeAppend(Quoted(e.key), [COLON]);
    QuotedSurrogates(e.key);
  }

  lemma LinesPlain(entries: seq<Entry>)
    ensures SurrogateFree(Join(Lines(Sorted(entries)))) <==>
            forall i | 0 <= i < |entries| :: SurrogateFree(entries[i].key) && SurrogateFree(entries[i].text)
  {
    hide SurrogateFree, Line;
    var x := Sorted(entries);
    JoinPlain(Lines(x));
    forall i | 0 <= i < |x| ensures x[i] in entries {
      SortedMember(entries, x[i]);
    }
    forall i | 0 <= i < |entries| ensures entries[i] in x {
      SortedMember(entries, entries[i]);
    }
    forall i | 0 <= i < |x|
      ensures SurrogateFree(Lines(x)[i]) <==> SurrogateFree(x[i].key) && SurrogateFree(x[i].text)
    {
      LinePlain(x[i]);
    }
  }

  lemma {:induction false} RenderPlain(v: Json)
    requires Supported(v)
    ensures SurrogateFree(Render(v)) <==> Plain(v)
    decreases v
  {
    match v
    case Integer(n) => IntegerSurrogates(n);
    case String(text) => QuotedSurrogates(text);
    case Array(items) =>
      hide SurrogateFree;
      RenderArray(items);
      Bracketed(OPEN_LIST, Join(Texts(items)), CLOSE_LIST);
      JoinPlain(Texts(items));
      forall i | 0 <= i < |items| ensures SurrogateFree(Texts(items)[i]) <==> Plain(items[i]) {
        RenderPlain(items[i]);
      }
    case Object(members) =>
      hide SurrogateFree;
      RenderObject(members);
      Bracketed(OPEN_MAP, Join(Lines(Sorted(Entries(members)))), CLOSE_MAP);
      LinesPlain(Entries(members));
      forall i | 0 <= i < |members| ensures SurrogateFree(Entries(members)[i].text) <==> Plain(members[i].value) {
        RenderPlain(members[i].value);
      }
    case _ =>
  }

  function KeySet(members: seq<Member>): set<Key> {
    set m | m in members :: m.key
  }

  lemma {:induction false} KeyCount(members: seq<Member>)
    requires forall i, j | 0 <= i < j < |members| :: members[i].key != members[j].key
    ensures |KeySet(members)| == |members|
  {
    if members != [] {
      var front, last := members[..|members| - 1], members[|members| - 1];
      KeyCount(front);
      assert members == front + [last];
      assert KeySet(members) == KeySet(front) + {last.key};
      assert last.key !in KeySet(front);
    }
  }

  ghost predicate DistinctKeys(members: seq<Member>) {
    forall i, j | 0 <= i < j < |members| :: members[i].key != members[j].key
  }

  ghost predicate HasTwin(m: Member, b: seq<Member>) {
    exists j :: 0 <= j < |b| && Twins(m, b[j])
  }

  ghost predicate HasFellow(m: Member, b: seq<Member>) {
    exists j :: 0 <= j < |b| && Fellows(m, b[j])
  }

  ghost predicate Twins(m: Member, n: Member) {
    m.key == n.key && Alike(m.value, n.value)
  }

  lemma ObjectTwins(a: seq<Member>, b: seq<Member>)
    requires Alike(Object(a), Object(b))
    ensures |a| == |b| && forall i | 0 <= i < |a| :: HasTwin(a[i], b)
  {
    forall i | 0 <= i < |a| ensures HasTwin(a[i], b) {
      var j :| 0 <= j < |b| && a[i].key == b[j].key && Alike(a[i].value, b[j].value);
      assert Twins(a[i], b[j]);
    }
  }

  /** Every key of the second object is one of the first. */
  lemma KeyFound(a: seq<Member>, b: seq<Member>, j: nat) returns (i: nat)
    requires DistinctKeys(a) && DistinctKeys(b) && |a| == |b| && j < |b|
    requires forall i | 0 <= i < |a| :: HasTwin(a[i], b)
    ensures i < |a| && Twins(a[i], b[j])
  {
    hide Alike;
    KeyCount(a);
    KeyCount(b);
    forall key | key in KeySet(a) ensures key in KeySet(b) {
      var k :| 0 <= k < |a| && a[k].key == key;
      assert HasTwin(a[k], b);
      var n :| 0 <= n < |b| && Twins(a[k], b[n]);
      assert b[n] in b;
    }
    assert |KeySet(b) - KeySet(a)| == |KeySet(b)| - |KeySet(a)|;
    assert b[j] in b && b[j].key in KeySet(b);
    i :| 0 <= i < |a| && a[i].key == b[j].key;
    assert HasTwin(a[i], b);
    var n :| 0 <= n < |b| && Twins(a[i], b[n]);
    assert n == j;
  }

  predicate SameDomain(v: Json, w: Json) {
    (Supported(v) <==> Supported(w)) && (Plain(v) <==> Plain(w))
  }

  predicate Fellows(m: Member, n: Member) {
    m.key == n.key && SameDomain(m.value, n.value)
  }

  ghost predicate Covered(a: seq<Member>, b: seq<Member>) {
    forall i | 0 <= i < |a| :: HasFellow(a[i], b)
  }

  lemma ProperMembers(members: seq<Member>)
    requires Proper(Object(members))
    ensures DistinctKeys(members) && forall i | 0 <= i < |members| :: Proper(members[i].value)
  {
  }

  lemma ProperItems(items: seq<Json>)
    requires Proper(Array(items))
    ensures forall i | 0 <= i < |items| :: Proper(items[i])
  {
  }

  /** Values are alike kind by kind. */
  lemma AlikeParts(v: Json, w: Json)
    requires Alike(v, w)
    ensures v.Array? <==> w.Array?
    ensures v.Object? <==> w.Object?
    ensures v.Array? ==> |v.items| == |w.items| && forall i | 0 <= i < |v.items| :: Alike(v.items[i], w.items[i])
    ensures v.Object? ==> |v.members| == |w.members| && forall i | 0 <= i < |v.members| :: HasTwin(v.members[i], w.members)
    ensures !v.Array? && !v.Object? ==> v == w
  {
    if v.Object? {
      ObjectTwins(v.members, w.members);
    }
  }

  /** Values equal but for key order are printable together. */
  lemma {:induction false} AlikeDomain(v: Json, w: Json)
    requires Proper(v) && Proper(w) && Alike(v, w)
    ensures SameDomain(v, w)
    decreases v
  {
    hide Alike, Proper, Supported, Plain;
    AlikeParts(v, w);
    if v.Array? {
      ProperItems(v.items);
      ProperItems(w.items);
      forall i | 0 <= i < |v.items| ensures SameDomain(v.items[i], w.items[i]) {
        AlikeDomain(v.items[i], w.items[i]);
      }
      ArrayDomain(v.items, w.items);
    } else if v.Object? {
      var a, b := v.members, w.members;
      ProperMembers(a);
      ProperMembers(b);
      forall i | 0 <= i < |a| ensures HasFellow(a[i], b) {
        assert HasTwin(a[i], b);
        var j :| 0 <= j < |b| && Twins(a[i], b[j]);
        AlikeDomain(a[i].value, b[j].value);
        assert Fellows(a[i], b[j]);
      }
      forall j | 0 <= j < |b| ensures HasFellow(b[j], a) {
        var i := KeyFound(a, b, j);
        AlikeDomain(a[i].value, b[j].value);
        assert Fellows(b[j], a[i]);
      }
      DomainFrom(a, b);
      DomainFrom(b, a);
    }
  }

  lemma ArrayDomain(a: seq<Json>, b: seq<Json>)
    requires |a| == |b| && forall i | 0 <= i < |a| :: SameDomain(a[i], b[i])
    ensures SameDomain(Array(a), Array(b))
  {
  }

  lemma DomainFrom(a: seq<Member>, b: seq<Member>)
    requires Covered(a, b)
    ensures Supported(Object(b)) ==> Supported(Object(a))
    ensures Plain(Object(b)) ==> Plain(Object(a))
  {
    hide SurrogateFree;
    forall i | 0 <= i < |a|
      ensures Supported(Object(b)) ==> a[i].key.TextKey? && Supported(a[i].value)
      ensures Plain(Object(b)) ==> (a[i].key.TextKey? ==> SurrogateFree(a[i].key.text)) && Plain(a[i].value)
    {
      assert HasFellow(a[i], b);
      var j :| 0 <= j < |b| && Fellows(a[i], b[j]);
    }
  }

  // ---------------------------------------------------------------------
  // Where key order is forgotten: exactly where no two keys share an encoding.
  // ---------------------------------------------------------------------

  /** No object of the value has two keys with one encoding. */
  ghost predicate Apart(v: Json) {
    match v
    case Array(items) => forall i | 0 <= i < |items| :: Apart(items[i])
    case Object(members) =>
      && (forall i | 0 <= i < |members| :: Apart(members[i].value))
      && (forall i, j | 0 <= i < j < |members| :: EncodingsDiffer(members[i].key, members[j].key))
    case _ => true
  }

  predicate EncodingsDiffer(a: Key, b: Key) {
    a.TextKey? && b.TextKey? ==> KeyBytes(a.text) != KeyBytes(b.text)
  }

  /** Without surrogates keys never do. */
  lemma {:induction false} PlainApart(v: Json)
    requires Proper(v) && Plain(v)
    ensures Apart(v)
    decreases v
  {
    match v
    case Array(items) =>
      forall i | 0 <= i < |items| ensures Apart(items[i]) {
        PlainApart(items[i]);
      }
    case Object(members) =>
      forall i | 0 <= i < |members| ensures Apart(members[i].value) {
        PlainApart(members[i].value);
      }
      forall i, j | 0 <= i < j < |members| ensures EncodingsDiffer(members[i].key, members[j].key) {
        if members[i].key.TextKey? && members[j].key.TextKey? {
          KeyBytesUnique(members[i].key.text, members[j].key.text);
        }
      }
    case _ =>
  }

  lemma ApartMembers(members: seq<Member>)
    requires Apart(Object(members))
    ensures forall i | 0 <= i < |members| :: Apart(members[i].value)
    ensures forall i, j | 0 <= i < j < |members| :: EncodingsDiffer(members[i].key, members[j].key)
  {
    hide EncodingsDiffer;
  }

  lemma SupportedMembers(members: seq<Member>)
    requires Supported(Object(members))
    ensures forall i | 0 <= i < |members| :: members[i].key.TextKey? && Supported(members[i].value)
  {
  }

  /** Where no keys share an encoding, values equal but for key order print alike. */
  lemma {:induction false} AlikeRenders(v: Json, w: Json)
    requires Proper(v) && Proper(w) && Alike(v, w) && Supported(v) && Supported(w) && Apart(v)
    ensures Render(v) == Render(w)
    decreases v
  {
    hide Alike, Proper, Render, EncodingsDiffer;
    AlikeParts(v, w);
    if v.Array? {
      ProperItems(v.items);
      ProperItems(w.items);
      forall i | 0 <= i < |v.items| ensures Render(v.items[i]) == Render(w.items[i]) {
        AlikeRenders(v.items[i], w.items[i]);
      }
      RenderArray(v.items);
      RenderArray(w.items);
      assert Texts(v.items) == Texts(w.items);
    } else if v.Object? {
      var a, b := v.members, w.members;
      ProperMembers(a);
      ProperMembers(b);
      ApartMembers(a);
      SupportedMembers(a);
      SupportedMembers(b);
      hide Apart, Supported, DistinctKeys;
      forall i | 0 <= i < |a| ensures Entries(a)[i] in Entries(b) {
        assert HasTwin(a[i], b);
        var j :| 0 <= j < |b| && Twins(a[i], b[j]);
        AlikeRenders(a[i].value, b[j].value);
        assert Entries(b)[j] == Entries(a)[i];
      }
      forall j | 0 <= j < |b| ensures Entries(b)[j] in Entries(a) {
        var i := KeyFound(a, b, j);
        AlikeRenders(a[i].value, b[j].value);
        assert Entries(a)[i] == Entries(b)[j];
      }
      ObjectsRender(a, b);
    }
  }

  lemma EntriesApart(members: seq<Member>)
    requires Supported(Object(members))
    requires forall i, j | 0 <= i < j < |members| :: EncodingsDiffer(members[i].key, members[j].key)
    ensures KeysApart(Entries(members))
  {
    hide KeyBytes, Render;
    var x := Entries(members);
    forall i, j | 0 <= i < j < |x| ensures KeyBytes(x[i].key) != KeyBytes(x[j].key) {
      assert EncodingsDiffer(members[i].key, members[j].key);
    }
  }

  /** Entries of different keys, all among entries whose keys are apart, are apart. */
  lemma ApartAmong(x: seq<Entry>, y: seq<Entry>)
    requires KeysApart(x) && forall j | 0 <= j < |y| :: y[j] in x
    requires forall i, j | 0 <= i < j < |y| :: y[i].key != y[j].key
    ensures KeysApart(y)
  {
    hide KeyBytes;
    forall i, j | 0 <= i < j < |y| ensures KeyBytes(y[i].key) != KeyBytes(y[j].key) {
      var m :| 0 <= m < |x| && x[m] == y[i];
      var n :| 0 <= n < |x| && x[n] == y[j];
    }
  }

  lemma ObjectsRender(a: seq<Member>, b: seq<Member>)
    requires Supported(Object(a)) && Supported(Object(b)) && DistinctKeys(b)
    requires forall i, j | 0 <= i < j < |a| :: EncodingsDiffer(a[i].key, a[j].key)
    requires forall i | 0 <= i < |a| :: Entries(a)[i] in Entries(b)
    requires forall j | 0 <= j < |b| :: Entries(b)[j] in Entries(a)
    ensures Render(Object(a)) == Render(Object(b))
  {
    hide KeysApart, Sorted, EncodingsDiffer, Render;
    EntriesApart(a);
    assert forall i, j | 0 <= i < j < |b| :: b[i].key != b[j].key;
    ApartAmong(Entries(a), Entries(b));
    assert SameMembers(Entries(a), Entries(b));
    SortForgets(Entries(a), Entries(b));
    RenderObject(a);
    RenderObject(b);
  }

  lemma {:induction false} AlikeItself(v: Json)
    ensures Alike(v, v)
    decreases v
  {
    match v
    case Array(items) =>
      forall i | 0 <= i < |items| ensures Alike(items[i], items[i]) {
        AlikeItself(items[i]);
      }
    case Object(members) =>
      forall i | 0 <= i < |members| ensures HasTwin(members[i], members) {
        AlikeItself(members[i].value);
        assert Twins(members[i], members[i]);
      }
      TwinsAlike(v, v);
    case _ =>
  }

  /** The entries whose keys have one encoding, in order. */
  function Sharing(entries: seq<Entry>, bytes: seq<nat>): seq<Entry> {
    if entries == [] then []
    else (if KeyBytes(entries[0].key) == bytes then [entries[0]] else []) + Sharing(entries[1..], bytes)
  }

  lemma {:induction false} InsertSharing(e: Entry, sorted: seq<Entry>, bytes: seq<nat>)
    ensures Sharing(Insert(KeyOrder, e, sorted), bytes) == Sharing([e] + sorted, bytes)
  {
    hide KeyBytes;
    assert ([e] + sorted)[1..] == sorted;
    if sorted != [] && KeyOrder(e, sorted[0]) > 0 {
      KeyOrderLaws(e, sorted[0], e);
      hide KeyOrder;
      InsertSharing(e, sorted[1..], bytes);
      assert ([e] + sorted[1..])[1..] == sorted[1..];
      assert Insert(KeyOrder, e, sorted)[1..] == Insert(KeyOrder, e, sorted[1..]);
    }
  }

  /** The sort is stable. */
  lemma {:induction false} SortSharing(entries: seq<Entry>, bytes: seq<nat>)
    ensures Sharing(Sort(KeyOrder, entries), bytes) == Sharing(entries, bytes)
  {
    if entries != [] {
      hide KeyBytes, KeyOrder, Insert;
      SortSharing(entries[1..], bytes);
      InsertSharing(entries[0], Sort(KeyOrder, entries[1..]), bytes);
      assert ([entries[0]] + Sort(KeyOrder, entries[1..]))[1..] == Sort(KeyOrder, entries[1..]);
    }
  }

  lemma {:induction false} FirstSharing(entries: seq<Entry>, bytes: seq<nat>, i: nat)
    requires i < |entries| && KeyBytes(entries[i].key) == bytes
    ensures Sharing(entries, bytes) != [] && Sharing(entries, bytes)[0] in entries[..i + 1]
  {
    hide KeyBytes;
    if KeyBytes(entries[0].key) != bytes {
      FirstSharing(entries[1..], bytes, i - 1);
      assert entries[..i + 1] == [entries[0]] + entries[1..][..i];
    } else {
      assert entries[..i + 1][0] == entries[0];
    }
  }

  lemma UpdateCounts(x: seq<Entry>, k: nat, e: Entry)
    requires k < |x| && multiset(x[k := e]) == multiset(x)
    ensures e == x[k]
  {
    assert multiset(x[k := e])[e] == multiset(x)[e] + if e == x[k] then 0 else 1;
  }

  /** Members that print the same in some order do so at each place but one only if they do so there. */
  lemma OneReplaced(members: seq<Member>, k: nat, value: Json)
    requires k < |members| && Supported(Object(members)) && Supported(value)
    requires Render(Object(members)) == Render(Object(members[k := Member(members[k].key, value)]))
    ensures Render(members[k].value) == Render(value)
  {
    var others := members[k := Member(members[k].key, value)];
    var e := Entry(members[k].key.text, Render(value));
    EntriesReplaced(members, k, value);
    hide Render, Supported;
    ObjectEntries(members, others);
    SameContents(Entries(members), Entries(others));
    UpdateCounts(Entries(members), k, e);
  }

  lemma EntriesReplaced(members: seq<Member>, k: nat, value: Json)
    requires k < |members| && Supported(Object(members)) && Supported(value)
    ensures Supported(Object(members[k := Member(members[k].key, value)]))
    ensures Entries(members[k := Member(members[k].key, value)])
         == Entries(members)[k := Entry(members[k].key.text, Render(value))]
  {
    hide Render;
  }

  lemma SameContents(a: seq<Entry>, b: seq<Entry>)
    requires Sorted(a) == Sorted(b)
    ensures multiset(a) == multiset(b)
  {
    SortContents(KeyOrder, a);
    SortContents(KeyOrder, b);
  }

  /** The member at j put first. */
  function Fronted(members: seq<Member>, j: nat): (r: seq<Member>)
    requires j < |members|
    ensures |r| == |members|
    ensures forall k | 0 <= k < |r| :: r[k] == members[if k == 0 then j else if k <= j then k - 1 else k]
  {
    [members[j]] + members[..j] + members[j + 1..]
  }

  lemma FrontedHeads(members: seq<Member>, i: nat, j: nat)
    requires i < j < |members| && Supported(Object(members)) && DistinctKeys(members)
    requires KeyBytes(members[i].key.text) == KeyBytes(members[j].key.text)
    ensures Supported(Object(Fronted(members, j)))
    ensures var bytes := KeyBytes(members[i].key.text);
            Sharing(Entries(members), bytes) != Sharing(Entries(Fronted(members, j)), bytes)
  {
    hide KeyBytes, Sharing;
    var x, y, bytes := Entries(members), Entries(Fronted(members, j)), KeyBytes(members[i].key.text);
    FirstSharing(x, bytes, i);
    FirstSharing(y, bytes, 0);
    assert y[..1] == [y[0]] && y[0].key == members[j].key.text;
    var k :| 0 <= k < i + 1 && x[..i + 1][k] == Sharing(x, bytes)[0];
    assert members[k].key != members[j].key;
  }

  lemma FrontedShows(members: seq<Member>, i: nat, j: nat)
    requires i < j < |members| && Supported(Object(members)) && DistinctKeys(members)
    requires !EncodingsDiffer(members[i].key, members[j].key)
    ensures Supported(Object(Fronted(members, j))) && Render(Object(Fronted(members, j))) != Render(Object(members))
  {
    var others := Fronted(members, j);
    FrontedHeads(members, i, j);
    hide KeyBytes, Sorted, Render, Sharing, Fronted, Supported;
    SortSharing(Entries(members), KeyBytes(members[i].key.text));
    SortSharing(Entries(others), KeyBytes(members[i].key.text));
    if Render(Object(others)) == Render(Object(members)) {
      ObjectEntries(members, others);
    }
  }

  lemma TwinsAlike(v: Json, w: Json)
    requires v.Object? && w.Object? && |v.members| == |w.members|
    requires forall i | 0 <= i < |v.members| :: HasTwin(v.members[i], w.members)
    ensures Alike(v, w)
  {
    if v.members != [] {
      assert HasTwin(v.members[0], w.members);
      var j :| 0 <= j < |w.members| && Twins(v.members[0], w.members[j]);
    }
  }

  lemma FrontedProper(members: seq<Member>, j: nat)
    requires j < |members| && Proper(Object(members))
    ensures Proper(Object(Fronted(members, j)))
  {
    var others := Fronted(members, j);
    forall m, n | 0 <= m < n < |others| ensures others[m].key != others[n].key {
      var p := if m == 0 then j else if m <= j then m - 1 else m;
      var q := if n <= j then n - 1 else n;
      assert others[m] == members[p] && others[n] == members[q] && p != q;
    }
  }

  lemma FrontedAlike(members: seq<Member>, j: nat)
    requires j < |members|
    ensures Alike(Object(members), Object(Fronted(members, j)))
  {
    hide Alike;
    var others := Fronted(members, j);
    forall k | 0 <= k < |members| ensures HasTwin(members[k], others) {
      AlikeItself(members[k].value);
      var n := if k == j then 0 else if k < j then k + 1 else k;
      assert others[n] == members[k] && Twins(members[k], others[n]);
    }
    TwinsAlike(Object(members), Object(others));
  }

  lemma ReplacedAlike(members: seq<Member>, k: nat, value: Json)
    requires k < |members| && Proper(Object(members)) && Proper(value) && Alike(members[k].value, value)
    ensures var others := members[k := Member(members[k].key, value)];
            Proper(Object(others)) && Alike(Object(members), Object(others))
  {
    hide Alike;
    var others := members[k := Member(members[k].key, value)];
    forall i | 0 <= i < |members| ensures HasTwin(members[i], others) {
      AlikeItself(members[i].value);
      assert Twins(members[i], others[i]);
    }
    TwinsAlike(Object(members), Object(others));
  }

  lemma ItemReplaced(items: seq<Json>, k: nat, item: Json)
    requires k < |items| && Proper(Array(items)) && Supported(Array(items))
    requires Proper(item) && Supported(item) && Alike(items[k], item) && Render(item) != Render(items[k])
    ensures var w := Array(items[k := item]);
            Proper(w) && Supported(w) && Alike(Array(items), w) && Render(w) != Render(Array(items))
  {
    var others := items[k := item];
    forall i | 0 <= i < |items| ensures Alike(items[i], others[i]) {
      AlikeItself(items[i]);
    }
    assert Texts(items)[k] != Texts(others)[k];
    if Render(Array(others)) == Render(Array(items)) {
      ArrayTexts(items, others);
    }
  }

  lemma MemberReplaced(members: seq<Member>, k: nat, value: Json)
    requires k < |members| && Proper(Object(members)) && Supported(Object(members))
    requires Proper(value) && Supported(value) && Alike(members[k].value, value)
    requires Render(value) != Render(members[k].value)
    ensures var w := Object(members[k := Member(members[k].key, value)]);
            Proper(w) && Supported(w) && Alike(Object(members), w) && Render(w) != Render(Object(members))
  {
    hide Render, Alike;
    ReplacedAlike(members, k, value);
    if Render(Object(members)) == Render(Object(members[k := Member(members[k].key, value)])) {
      OneReplaced(members, k, value);
    }
  }

  ghost predicate Collide(members: seq<Member>, i: nat, j: nat) {
    i < j < |members| && !EncodingsDiffer(members[i].key, members[j].key)
  }

  /** An array that is not apart has such an item, an object such a value or two colliding keys. */
  lemma NotApart(v: Json) returns (k: nat, j: nat)
    requires !Apart(v)
    ensures v.Array? ==> k < |v.items| && !Apart(v.items[k])
    ensures v.Object? ==> (k < |v.members| && !Apart(v.members[k].value)) || Collide(v.members, k, j)
    ensures v.Array? || v.Object?
  {
    hide EncodingsDiffer;
    k, j := 0, 0;
    match v
    case Array(items) => k :| 0 <= k < |items| && !Apart(items[k]);
    case Object(members) =>
      if i :| 0 <= i < |members| && !Apart(members[i].value) {
        k := i;
      } else {
        var m, n :| 0 <= m < n < |members| && !EncodingsDiffer(members[m].key, members[n].key);
        k, j := m, n;
      }
    case _ =>
  }

  /** Where two keys share an encoding, some other order of keys prints differently. */
  lemma {:induction false} SharedShows(v: Json) returns (w: Json)
    requires Proper(v) && Supported(v) && !Apart(v)
    ensures Proper(w) && Supported(w) && Alike(v, w) && Render(w) != Render(v)
    decreases v
  {
    hide EncodingsDiffer, Render, Alike, Apart, Fronted;
    var k, j := NotApart(v);
    if v.Array? {
      var other := SharedShows(v.items[k]);
      ItemReplaced(v.items, k, other);
      w := Array(v.items[k := other]);
    } else if Collide(v.members, k, j) {
      w := Object(Fronted(v.members, j));
      FrontedProper(v.members, j);
      FrontedAlike(v.members, j);
      FrontedShows(v.members, k, j);
    } else {
      var other := SharedShows(v.members[k].value);
      MemberReplaced(v.members, k, other);
      w := Object(v.members[k := Member(v.members[k].key, other)]);
    }
  }

  /**
   The text of a value is the same for every order of its keys exactly when no
   object in it has two keys with one encoding.
  */
  lemma OrderForgottenExactly(v: Json)
    requires Proper(v) && Supported(v)
    ensures (forall w | Proper(w) && Alike(v, w) :: Canonical(w) == Canonical(v)) <==> Apart(v)
  {
    if Apart(v) {
      forall w | Proper(w) && Alike(v, w) ensures Canonical(w) == Canonical(v) {
        AlikeDomain(v, w);
        AlikeRenders(v, w);
      }
    } else {
      var w := SharedShows(v);
      assert Canonical(w) != Canonical(v);
    }
  }

  /**
   canonical_json_bytes is one for each value up to key order: values that differ
   only in the order of keys have the same outcome, and two values with the same
   bytes differ only so.
  */
  lemma CanonicalBytesExactly(v: Json, w: Json)
    requires Proper(v) && Proper(w)
    ensures Alike(v, w) ==> CanonicalBytes(v) == CanonicalBytes(w)
    ensures CanonicalBytes(v).Ok? ==> (CanonicalBytes(v) == CanonicalBytes(w) <==> Alike(v, w))
    ensures CanonicalBytes(v).Ok? <==> Supported(v) && Plain(v)
  {
    hide Render, Plain, Supported, Proper, Alike, SurrogateFree;
    if Supported(v) {
      RenderPlain(v);
    }
    if Supported(w) {
      RenderPlain(w);
    }
    if Alike(v, w) {
      AlikeDomain(v, w);
      if Supported(v) && Plain(v) {
        PlainApart(v);
        AlikeRenders(v, w);
      }
    } else if CanonicalBytes(v).Ok? && CanonicalBytes(w).Ok? {
      Utf8AllUnique(Render(v), Render(w));
      if Render(v) == Render(w) {
        RenderInjective(v, w);
      }
    }
  }

  /** The text before UTF-8 does show it when two keys share an encoding: a surrogate pair and what it encodes. */
  lemma SurrogatePairShowsOrder()
    ensures var pair, one := Member(TextKey([0xD800, 0xDC00]), Integer(1)), Member(TextKey([0x10000]), Integer(2));
            var v, w := Object([pair, one]), Object([one, pair]);
            && Proper(v) && Proper(w) && Alike(v, w)
            && Canonical(v).Ok? && Canonical(w).Ok? && Canonical(v) != Canonical(w)
            && CanonicalBytes(v).Failure? && CanonicalBytes(w).Failure?
  {
    var pair, one := Member(TextKey([0xD800, 0xDC00]), Integer(1)), Member(TextKey([0x10000]), Integer(2));
    SharedEncoding();
    assert Surrogate(pair.key.text[0]);
    assert Integer(1) != Integer(2) && IntegerText(1) == [0x31] && IntegerText(2) == [0x32];
    SwappedShows(pair, one);
  }

  /** Swapping two members whose keys share an encoding swaps them in the text. */
  lemma SwappedShows(m: Member, n: Member)
    requires m.key.TextKey? && n.key.TextKey? && m.key != n.key
    requires m.value.Integer? && n.value.Integer? && Supported(m.value) && Supported(n.value)
    requires KeyBytes(m.key.text) == KeyBytes(n.key.text)
    ensures var v, w := Object([m, n]), Object([n, m]);
            && Proper(v) && Proper(w) && Alike(v, w) && Supported(v) && Supported(w) && Render(v) != Render(w)
            && (!SurrogateFree(m.key.text) ==> CanonicalBytes(v).Failure? && CanonicalBytes(w).Failure?)
  {
    hide KeyBytes, SurrogateFree, Render, Sorted;
    var v, w := Object([m, n]), Object([n, m]);
    assert v.members[0].key == w.members[1].key && v.members[1].key == w.members[0].key;
    assert Alike(v.members[0].value, w.members[1].value) && Alike(v.members[1].value, w.members[0].value);
    var e, d := Entries([m, n])[0], Entries([m, n])[1];
    assert Entries([m, n]) == [e, d] && Entries([n, m]) == [d, e];
    InsertAhead(e, d);
    InsertAhead(d, e);
    assert [e, d][0].key != [d, e][0].key;
    if Render(v) == Render(w) {
      ObjectEntries([m, n], [n, m]);
    }
    RenderPlain(v);
    RenderPlain(w);
    assert !Plain(v) <== !SurrogateFree(v.members[0].key.text);
    assert !Plain(w) <== !SurrogateFree(w.members[1].key.text);
  }

  lemma SharedEncoding()
    ensures KeyBytes([0xD800, 0xDC00]) == KeyBytes([0x10000])
  {
    assert Utf16([0xDC00]) == [0xDC00];
    assert Utf16([0xD800, 0xDC00]) == [0xD800, 0xDC00] by {
      assert [0xD800, 0xDC00][1..] == [0xDC00];
    }
    assert Utf16([0x10000]) == [0xD800, 0xDC00];
  }
}
