/**
 What canonical JSON looks like (`scripts/runtime_provider_contract.py:103-107,
 728-752`), said by readers of its parts that follow RFC 8259 and RFC 3629 and by
 the order of keys in section 3.2.3 of RFC 8785, not by the printer's own functions.
*/
module CanonicalForm {
  import opened Wrappers
  import opened Semver
  import opened Versions
  import opened CanonicalText
  import opened Printer = Canonical
  import opened Sorting

  /** Characters of the ASCII range as code points. */
  function Ascii(s: string): (t: Text)
    requires forall i | 0 <= i < |s| :: s[i] < '\U{80}'
    ensures |t| == |s| && forall i | 0 <= i < |s| :: t[i] == s[i] as int
  {
    seq(|s|, i requires 0 <= i < |s| => s[i] as int)
  }

  // ---------------------------------------------------------------------
  // Readers.
  // ---------------------------------------------------------------------

  /** The character after a backslash, section 7 of RFC 8259, `u` aside. */
  function Escaped(c: CodePoint): Option<CodePoint> {
    if c == '\"' as int then Some('\"' as int)
    else if c == '\\' as int then Some('\\' as int)
    else if c == '/' as int then Some('/' as int)
    else if c == 'b' as int then Some(8)
    else if c == 't' as int then Some(9)
    else if c == 'n' as int then Some(10)
    else if c == 'f' as int then Some(12)
    else if c == 'r' as int then Some(13)
    else None
  }

  function HexValue(c: CodePoint): Option<nat> {
    if '0' as int <= c <= '9' as int then Some(c - '0' as int)
    else if 'a' as int <= c <= 'f' as int then Some(c - 'a' as int + 10)
    else if 'A' as int <= c <= 'F' as int then Some(c - 'A' as int + 10)
    else None
  }

  function Hex4(t: Text): Option<CodePoint>
    requires |t| == 4
  {
    var a, b, c, d := HexValue(t[0]), HexValue(t[1]), HexValue(t[2]), HexValue(t[3]);
    if a.Some? && b.Some? && c.Some? && d.Some? && a.value < 16 && b.value < 16 && c.value < 16 && d.value < 16
    then Some(a.value * 0x1000 + b.value * 0x100 + c.value * 0x10 + d.value) else None
  }

  /** The inside of a JSON string: unescaped characters, short escapes and `\uXXXX`. */
  function Unescape(t: Text): Option<Text> {
    if t == [] then Some([])
    else if t[0] == '\\' as int then
      if |t| >= 6 && t[1] == 'u' as int then
        var c, rest := Hex4(t[2..6]), Unescape(t[6..]);
        if c.Some? && rest.Some? then Some([c.value] + rest.value) else None
      else if |t| >= 2 then
        var c, rest := Escaped(t[1]), Unescape(t[2..]);
        if c.Some? && rest.Some? then Some([c.value] + rest.value) else None
      else None
    else if t[0] < 0x20 || t[0] == '\"' as int then None
    else
      var rest := Unescape(t[1..]);
      if rest.Some? then Some([t[0]] + rest.value) else None
  }

  /** What a quoted string says. */
  function StringSays(t: Text): Option<Text> {
    if |t| >= 2 && t[0] == '\"' as int && t[|t| - 1] == '\"' as int then Unescape(t[1..|t| - 1]) else None
  }

  /** The value of decimal digits. */
  function DecimalValue(t: Text): nat
    requires forall i | 0 <= i < |t| :: '0' as int <= t[i] <= '9' as int
  {
    if t == [] then 0 else 10 * DecimalValue(t[..|t| - 1]) + (t[|t| - 1] - '0' as int)
  }

  /** Decimal digits without leading zeros, and what they are worth. */
  ghost predicate Natural(t: Text, n: nat) {
    && t != [] && (forall i | 0 <= i < |t| :: '0' as int <= t[i] <= '9' as int)
    && (t[0] == '0' as int ==> |t| == 1)
    && DecimalValue(t) == n
  }

  ghost predicate IntegerSays(t: Text, n: int) {
    if n < 0 then t != [] && t[0] == '-' as int && Natural(t[1..], -n) else Natural(t, n)
  }

  predicate Continuation(b: nat) {
    0x80 <= b < 0xC0
  }

  /** One character's UTF-8 bytes, section 3 of RFC 3629. */
  predicate Utf8Says(b: seq<nat>, c: CodePoint) {
    || (|b| == 1 && b[0] < 0x80 && c == b[0])
    || (|b| == 2 && 0xC0 <= b[0] < 0xE0 && Continuation(b[1])
        && 0x80 <= c == (b[0] - 0xC0) * 0x40 + (b[1] - 0x80))
    || (|b| == 3 && 0xE0 <= b[0] < 0xF0 && Continuation(b[1]) && Continuation(b[2])
        && 0x800 <= c == (b[0] - 0xE0) * 0x1000 + (b[1] - 0x80) * 0x40 + (b[2] - 0x80))
    || (|b| == 4 && 0xF0 <= b[0] < 0xF8 && Continuation(b[1]) && Continuation(b[2]) && Continuation(b[3])
        && 0x10000 <= c
           == (b[0] - 0xF0) * 0x40000 + (b[1] - 0x80) * 0x1000 + (b[2] - 0x80) * 0x40 + (b[3] - 0x80))
  }

  /** One character's UTF-16 code units, section 2.1 of RFC 2781. */
  predicate Utf16Says(u: seq<nat>, c: CodePoint) {
    || (|u| == 1 && u[0] == c < 0x10000)
    || (|u| == 2 && 0xD800 <= u[0] < 0xDC00 && 0xDC00 <= u[1] < 0xE000
        && c == 0x10000 + (u[0] - 0xD800) * 0x400 + (u[1] - 0xDC00))
  }

  /** Cut into one piece for each character. */
  ghost predicate Pieces(whole: seq<nat>, text: Text, says: (seq<nat>, CodePoint) -> bool)
    decreases |text|
  {
    if text == [] then whole == []
    else exists n: nat :: n <= |whole| && says(whole[..n], text[0]) && Pieces(whole[n..], text[1..], says)
  }

  /** Texts with commas between them. */
  function Separated(texts: seq<Text>): Text {
    if texts == [] then []
    else if |texts| == 1 then texts[0]
    else Separated(texts[..|texts| - 1]) + Ascii(",") + texts[|texts| - 1]
  }

  // ---------------------------------------------------------------------
  // Strings.
  // ---------------------------------------------------------------------

  lemma HexReads(d: nat)
    requires d < 16
    ensures HexValue(HexDigit(d)) == Some(d)
  {
  }

  lemma PlainReads(c: CodePoint, rest: Text)
    requires Unescape(rest).Some? && c >= 0x20 && c != '\"' as int && c != '\\' as int
    ensures Unescape([c] + rest) == Some([c] + Unescape(rest).value)
  {
    assert ([c] + rest)[1..] == rest;
  }

  lemma ShortReads(x: CodePoint, c: CodePoint, rest: Text)
    requires Unescape(rest).Some? && Escaped(x) == Some(c)
    ensures Unescape([0x5C, x] + rest) == Some([c] + Unescape(rest).value)
  {
    assert ([0x5C, x] + rest)[2..] == rest;
  }

  lemma LongReads(c: CodePoint, rest: Text)
    requires Unescape(rest).Some? && c < 0x20
    ensures Unescape([0x5C, 0x75, 0x30, 0x30, HexDigit(c / 16), HexDigit(c % 16)] + rest) == Some([c] + Unescape(rest).value)
  {
    var t := [0x5C, 0x75, 0x30, 0x30, HexDigit(c / 16), HexDigit(c % 16)] + rest;
    HexReads(c / 16);
    HexReads(c % 16);
    HexReads(0);
    hide HexDigit, HexValue;
    assert t[6..] == rest && t[2..6] == [0x30, 0x30, HexDigit(c / 16), HexDigit(c % 16)];
  }

  lemma EscapeReads(c: CodePoint, rest: Text)
    requires Unescape(rest).Some?
    ensures Unescape(Escape(c) + rest) == Some([c] + Unescape(rest).value)
  {
    hide Unescape;
    if |Escape(c)| == 6 {
      LongReads(c, rest);
    } else if |Escape(c)| == 2 {
      ShortReads(Escape(c)[1], c, rest);
      assert Escape(c) == [0x5C, Escape(c)[1]];
    } else {
      PlainReads(c, rest);
    }
  }

  lemma {:induction false} EscapeAllReads(text: Text)
    ensures Unescape(EscapeAll(text)) == Some(text)
  {
    if text != [] {
      EscapeAllReads(text[1..]);
      EscapeReads(text[0], EscapeAll(text[1..]));
      assert text == [text[0]] + text[1..];
    }
  }

  /** A printed string says the text it was printed for. */
  lemma QuotedReads(text: Text)
    ensures StringSays(Quoted(text)) == Some(text)
  {
    EscapeAllReads(text);
    var t := Quoted(text);
    assert t[1..|t| - 1] == EscapeAll(text);
  }

  /** Nothing is escaped that need not be, and what has a short escape gets it. */
  lemma EscapesLeast(c: CodePoint)
    ensures |Escape(c)| == 1 <==> c >= 0x20 && c != '\"' as int && c != '\\' as int
    ensures |Escape(c)| == 2 <==> exists x :: Escaped(x) == Some(c) && x != '/' as int
    ensures |Escape(c)| == 6 ==> Escape(c)[..4] == Ascii("\\u00") && forall i | 4 <= i < 6 :: !(0x41 <= Escape(c)[i] <= 0x46)
  {
    if |Escape(c)| == 2 {
      assert Escaped(Escape(c)[1]) == Some(c);
    }
  }

  // ---------------------------------------------------------------------
  // Integers.
  // ---------------------------------------------------------------------

  lemma {:induction false} DigitsRead(n: nat)
    ensures Natural(Digits(n), n) && (Digits(n)[0] == '0' as int ==> n == 0)
  {
    if n >= 10 {
      DigitsRead(n / 10);
      var t, front := Digits(n), Digits(n / 10);
      assert t[..|t| - 1] == front && t[0] == front[0];
    }
  }

  lemma IntegerReads(n: int)
    ensures IntegerSays(IntegerText(n), n)
  {
    if n < 0 {
      DigitsRead(-n);
      assert IntegerText(n)[1..] == Digits(-n);
    } else {
      DigitsRead(n);
    }
  }

  // ---------------------------------------------------------------------
  // Encodings.
  // ---------------------------------------------------------------------

  lemma Utf8Reads(c: CodePoint)
    ensures Utf8Says(Utf8(c), c)
  {
    Split6(c);
    assert c == c / 0x40 * 0x40 + c % 0x40;
  }

  lemma UnitsRead(c: CodePoint)
    ensures Utf16Says(Units(c), c)
  {
    if c >= 0x10000 {
      var d := c - 0x10000;
      assert d == d / 0x400 * 0x400 + d % 0x400;
    }
  }

  lemma PieceFirst(whole: seq<nat>, n: nat, text: Text, says: (seq<nat>, CodePoint) -> bool)
    requires text != [] && n <= |whole| && says(whole[..n], text[0]) && Pieces(whole[n..], text[1..], says)
    ensures Pieces(whole, text, says)
  {
  }

  lemma {:induction false} Utf8AllReads(text: Text)
    ensures Pieces(Utf8All(text), text, Utf8Says)
  {
    if text != [] {
      Utf8AllReads(text[1..]);
      Utf8Reads(text[0]);
      var first, whole := Utf8(text[0]), Utf8All(text);
      assert whole[..|first|] == first && whole[|first|..] == Utf8All(text[1..]);
      PieceFirst(whole, |first|, text, Utf8Says);
    }
  }

  lemma {:induction false} Utf16Reads(text: Text)
    ensures Pieces(Utf16(text), text, Utf16Says)
  {
    if text != [] {
      Utf16Reads(text[1..]);
      UnitsRead(text[0]);
      var first, whole := Units(text[0]), Utf16(text);
      assert whole[..|first|] == first && whole[|first|..] == Utf16(text[1..]);
      PieceFirst(whole, |first|, text, Utf16Says);
    }
  }

  // ---------------------------------------------------------------------
  // Lists and objects.
  // ---------------------------------------------------------------------

  lemma {:induction false} JoinLast(texts: seq<Text>, last: Text)
    requires texts != []
    ensures Join(texts + [last]) == Join(texts) + Ascii(",") + last
  {
    var all := texts + [last];
    assert all[0] == texts[0] && all[1..] == texts[1..] + [last];
    if |texts| == 1 {
      assert texts[1..] == [] && all[1..] == [last] && [last][1..] == [];
      assert Tail([last]) == [COMMA] + Join([last]) && Join([last]) == last + Tail([]);
      assert Tail([last]) == [COMMA] + last;
    } else {
      JoinLast(texts[1..], last);
    }
  }

  lemma {:induction false} JoinSeparates(texts: seq<Text>)
    ensures Join(texts) == Separated(texts)
  {
    if |texts| == 1 {
      assert texts[1..] == [];
    } else if texts != [] {
      var front, last := texts[..|texts| - 1], texts[|texts| - 1];
      assert texts == front + [last];
      JoinLast(front, last);
      JoinSeparates(front);
    }
  }

  function KeyText(m: Member): Text {
    if m.key.TextKey? then m.key.text else []
  }

  /** `"key":value` for each member, in the order given. */
  function MemberTexts(members: seq<Member>): (r: seq<Text>)
    requires Supported(Object(members))
    ensures |r| == |members|
    ensures forall i | 0 <= i < |r| :: r[i] == Quoted(KeyText(members[i])) + Ascii(":") + Render(members[i].value)
  {
    SupportedMembers(members);
    seq(|members|, i requires 0 <= i < |members| =>
      Quoted(KeyText(members[i])) + Ascii(":") + Render(members[i].value))
  }

  /** Section 3.2.3 of RFC 8785: by UTF-16 code units. */
  ghost predicate KeysInOrder(members: seq<Member>) {
    forall i, j | 0 <= i < j < |members| ::
      !LexLess(NumberLess, Utf16(KeyText(members[j])), Utf16(KeyText(members[i])))
  }

  function MemberOrder(a: Member, b: Member): int {
    CompareNumbers(KeyBytes(KeyText(a)), KeyBytes(KeyText(b)))
  }

  lemma MemberOrderLaws()
    ensures Preorder(MemberOrder)
  {
    hide KeyBytes;
    forall a: Member, b: Member, c: Member
      ensures MemberOrder(a, b) < 0 <==> MemberOrder(b, a) > 0
      ensures MemberOrder(a, b) <= 0 && MemberOrder(b, c) <= 0 ==> MemberOrder(a, c) <= 0
    {
      NumberOrderLaws(KeyBytes(KeyText(a)), KeyBytes(KeyText(b)), KeyBytes(KeyText(c)));
      NumberOrderLaws(KeyBytes(KeyText(b)), KeyBytes(KeyText(c)), KeyBytes(KeyText(a)));
    }
  }

  lemma OrderIsByUnits(a: Member, b: Member)
    ensures MemberOrder(a, b) <= 0 <==> !LexLess(NumberLess, Utf16(KeyText(b)), Utf16(KeyText(a)))
  {
    var x, y := Utf16(KeyText(a)), Utf16(KeyText(b));
    BytesOrder(x, y);
    CompareNumbersIsLexical(x, y);
  }

  /** The arrangement the printer chooses. */
  function Arranged(members: seq<Member>): seq<Member> {
    Sort(MemberOrder, members)
  }

  lemma ArrangedInOrder(members: seq<Member>)
    ensures multiset(Arranged(members)) == multiset(members) && KeysInOrder(Arranged(members))
  {
    hide MemberOrder;
    MemberOrderLaws();
    SortNeverDescends(MemberOrder, members);
    SortContents(MemberOrder, members);
    var x := Arranged(members);
    forall i, j | 0 <= i < j < |x| ensures !LexLess(NumberLess, Utf16(KeyText(x[j])), Utf16(KeyText(x[i]))) {
      OrderIsByUnits(x[i], x[j]);
    }
  }

  lemma ArrangedSupported(members: seq<Member>)
    requires Supported(Object(members))
    ensures Supported(Object(Arranged(members)))
  {
    var x := Arranged(members);
    forall i | 0 <= i < |x| ensures x[i].key.TextKey? && Supported(x[i].value) {
      SortMember(MemberOrder, members, x[i]);
    }
  }

  lemma InsertedSupported(m: Member, sorted: seq<Member>)
    requires Supported(Object([m])) && Supported(Object(sorted))
    ensures Supported(Object(Insert(MemberOrder, m, sorted)))
  {
    var r := Insert(MemberOrder, m, sorted);
    assert [m][0] == m;
    forall i | 0 <= i < |r| ensures r[i].key.TextKey? && Supported(r[i].value) {
      InsertMember(MemberOrder, m, sorted, r[i]);
    }
  }

  lemma RestSupported(members: seq<Member>)
    requires Supported(Object(members)) && members != []
    ensures Supported(Object(members[1..])) && Supported(Object([members[0]]))
    ensures Entries(members)[1..] == Entries(members[1..]) && Entries(members)[0] == Entries([members[0]])[0]
  {
    var rest := members[1..];
    assert forall i | 0 <= i < |rest| :: rest[i] == members[i + 1];
  }

  lemma SameOrder(m: Member, n: Member)
    requires Supported(Object([m])) && Supported(Object([n]))
    ensures |Entries([m])| == 1 == |Entries([n])|
    ensures KeyOrder(Entries([m])[0], Entries([n])[0]) == MemberOrder(m, n)
  {
    assert [m][0] == m && [n][0] == n;
  }

  lemma EntriesCons(m: Member, rest: seq<Member>)
    requires Supported(Object([m])) && Supported(Object(rest))
    ensures Supported(Object([m] + rest)) && Entries([m] + rest) == Entries([m]) + Entries(rest)
    ensures Entries([m]) == [Entries([m])[0]]
  {
    var all := [m] + rest;
    assert [m][0] == m;
    SupportedMembers([m]);
    SupportedMembers(rest);
    assert forall i | 0 <= i < |all| :: all[i].key.TextKey? && Supported(all[i].value);
  }

  lemma {:induction false} InsertEntries(m: Member, sorted: seq<Member>)
    requires Supported(Object([m])) && Supported(Object(sorted))
    ensures Supported(Object(Insert(MemberOrder, m, sorted)))
    ensures Insert(KeyOrder, Entries([m])[0], Entries(sorted)) == Entries(Insert(MemberOrder, m, sorted))
    decreases |sorted|
  {
    hide Supported, KeyOrder, MemberOrder, Render, Entries;
    InsertedSupported(m, sorted);
    EntriesCons(m, sorted);
    if sorted != [] {
      RestSupported(sorted);
      SameOrder(m, sorted[0]);
      var rest := Insert(MemberOrder, m, sorted[1..]);
      InsertEntries(m, sorted[1..]);
      EntriesCons(sorted[0], rest);
      EntriesCons(sorted[0], sorted[1..]);
      assert sorted == [sorted[0]] + sorted[1..];
    }
  }

  lemma {:induction false} SortedEntries(members: seq<Member>)
    requires Supported(Object(members))
    ensures Supported(Object(Arranged(members)))
    ensures Sorted(Entries(members)) == Entries(Arranged(members))
    decreases |members|
  {
    hide KeyOrder, MemberOrder;
    ArrangedSupported(members);
    if members != [] {
      RestSupported(members);
      SortedEntries(members[1..]);
      InsertEntries(members[0], Arranged(members[1..]));
    }
  }

  lemma LinesAreTexts(members: seq<Member>)
    requires Supported(Object(members))
    ensures Lines(Entries(members)) == MemberTexts(members)
  {
    hide Quoted;
    SupportedMembers(members);
    forall i | 0 <= i < |members| ensures Lines(Entries(members))[i] == MemberTexts(members)[i] {
      assert Ascii(":") == [COLON];
    }
  }

  /**
   An object is printed as its members, each as `"key":value`, with commas between
   them and in an arrangement whose keys never descend by UTF-16 code units.
  */
  lemma ObjectExactly(members: seq<Member>) returns (arranged: seq<Member>)
    requires Supported(Object(members))
    ensures multiset(arranged) == multiset(members) && KeysInOrder(arranged)
    ensures Supported(Object(arranged))
    ensures Render(Object(members)) == Ascii("{") + Separated(MemberTexts(arranged)) + Ascii("}")
  {
    hide Arranged, Sorted, Render, MemberTexts, Lines, KeysInOrder;
    arranged := Arranged(members);
    ArrangedInOrder(members);
    SortedEntries(members);
    SupportedMembers(members);
    SupportedMembers(arranged);
    LinesAreTexts(arranged);
    RenderObject(members);
    JoinSeparates(MemberTexts(arranged));
    assert Ascii("{") == [OPEN_MAP] && Ascii("}") == [CLOSE_MAP];
  }

  lemma ArrayExactly(items: seq<Json>)
    requires Supported(Array(items))
    ensures Render(Array(items)) == Ascii("[") + Separated(Texts(items)) + Ascii("]")
  {
    RenderArray(items);
    JoinSeparates(Texts(items));
    assert Ascii("[") == [OPEN_LIST] && Ascii("]") == [CLOSE_LIST];
  }

  /** The values without members, and which integers are printed at all. */
  lemma ScalarExactly(v: Json)
    ensures Canonical(Null) == Ok(Ascii("null"))
    ensures Canonical(Boolean(true)) == Ok(Ascii("true")) && Canonical(Boolean(false)) == Ok(Ascii("false"))
    ensures v.String? ==> Canonical(v).Ok? && StringSays(Canonical(v).value) == Some(v.text)
    ensures v.Integer? ==> (Canonical(v).Ok? <==> -0x1F_FFFF_FFFF_FFFF <= v.n <= 0x1F_FFFF_FFFF_FFFF)
    ensures v.Integer? && Canonical(v).Ok? ==> IntegerSays(Canonical(v).value, v.n)
    ensures v.Float? || v.Unsupported? ==> Canonical(v).Failure?
  {
    assert Ascii("null") == NULL && Ascii("true") == TRUE && Ascii("false") == FALSE;
    if v.String? {
      QuotedReads(v.text);
    }
    if v.Integer? {
      IntegerReads(v.n);
    }
  }

  /** canonical_json_bytes gives the UTF-8 bytes of the text, and refuses a text with a surrogate. */
  lemma BytesExactly(v: Json)
    ensures CanonicalBytes(v).Ok? <==>
      Canonical(v).Ok? && forall i | 0 <= i < |Canonical(v).value| :: !(0xD800 <= Canonical(v).value[i] <= 0xDFFF)
    ensures CanonicalBytes(v).Ok? ==> Pieces(CanonicalBytes(v).value, Canonical(v).value, Utf8Says)
  {
    hide Render;
    if CanonicalBytes(v).Ok? {
      Utf8AllReads(Render(v));
    }
  }
}
