/**
 Texts as sequences of code points, surrogates included, and the encodings
 canonical JSON uses: string escapes (section 7 of RFC 8259), decimal integers,
 UTF-8, and UTF-16 units for key order (section 3.2.3 of RFC 8785).
*/
module CanonicalText {
  import opened Versions

  type CodePoint = c: nat | c < 0x110000

  type Text = seq<CodePoint>

  predicate Surrogate(c: CodePoint) {
    0xD800 <= c < 0xE000
  }

  predicate SurrogateFree(text: Text) {
    forall i | 0 <= i < |text| :: !Surrogate(text[i])
  }

  lemma SurrogateFreeAppend(a: Text, b: Text)
    ensures SurrogateFree(a + b) <==> SurrogateFree(a) && SurrogateFree(b)
  {
    if SurrogateFree(a + b) {
      assert forall i | 0 <= i < |a| :: (a + b)[i] == a[i];
      assert forall i | 0 <= i < |b| :: (a + b)[|a| + i] == b[i];
    }
  }

  // ---------------------------------------------------------------------
  // Strings, as json.dumps with ensure_ascii off writes them.
  // ---------------------------------------------------------------------

  const QUOTE: CodePoint := 0x22
  const BACKSLASH: CodePoint := 0x5C

  function HexDigit(d: nat): CodePoint
    requires d < 16
  {
    if d < 10 then 0x30 + d else 0x61 + d - 10
  }

  function Escape(c: CodePoint): Text {
    if c == QUOTE then [BACKSLASH, QUOTE]
    else if c == BACKSLASH then [BACKSLASH, BACKSLASH]
    else if c == 0x0A then [BACKSLASH, 0x6E]
    else if c == 0x0D then [BACKSLASH, 0x72]
    else if c == 0x09 then [BACKSLASH, 0x74]
    else if c == 0x0C then [BACKSLASH, 0x66]
    else if c == 0x08 then [BACKSLASH, 0x62]
    else if c < 0x20 then [BACKSLASH, 0x75, 0x30, 0x30, HexDigit(c / 16), HexDigit(c % 16)]
    else [c]
  }

  function EscapeAll(text: Text): Text {
    if text == [] then [] else Escape(text[0]) + EscapeAll(text[1..])
  }

  function Quoted(text: Text): Text {
    [QUOTE] + EscapeAll(text) + [QUOTE]
  }

  lemma HexUnique(a: nat, b: nat)
    requires a < 16 && b < 16
    ensures HexDigit(a) == HexDigit(b) <==> a == b
  {
  }

  /** The escape of a character can be told from what follows it. */
  lemma EscapeUnique(c: CodePoint, d: CodePoint, r: Text, s: Text)
    requires Escape(c) + r == Escape(d) + s
    ensures c == d && r == s
  {
    var left, right := Escape(c) + r, Escape(d) + s;
    assert left[0] == Escape(c)[0] && right[0] == Escape(d)[0];
    if left[0] == BACKSLASH {
      assert left[1] == Escape(c)[1] && right[1] == Escape(d)[1];
      if left[1] == 0x75 {
        assert left[4] == Escape(c)[4] && right[4] == Escape(d)[4];
        assert left[5] == Escape(c)[5] && right[5] == Escape(d)[5];
        HexUnique(c / 16, d / 16);
        HexUnique(c % 16, d % 16);
      }
    }
    assert r == left[|Escape(c)|..] && s == right[|Escape(d)|..];
  }

  lemma {:induction false} EscapeAllUnique(a: Text, b: Text, r: Text, s: Text)
    requires EscapeAll(a) + [QUOTE] + r == EscapeAll(b) + [QUOTE] + s
    ensures a == b && r == s
    decreases |a|
  {
    hide Escape, EscapeAll;
    EscapeStart(a, r);
    EscapeStart(b, s);
    if a != [] {
      EscapeSplit(a, r);
      EscapeSplit(b, s);
      EscapeUnique(a[0], b[0], EscapeAll(a[1..]) + [QUOTE] + r, EscapeAll(b[1..]) + [QUOTE] + s);
      EscapeAllUnique(a[1..], b[1..], r, s);
      assert a == [a[0]] + a[1..] && b == [b[0]] + b[1..];
    }
  }

  lemma EscapeSplit(a: Text, r: Text)
    requires a != []
    ensures EscapeAll(a) + [QUOTE] + r == Escape(a[0]) + (EscapeAll(a[1..]) + [QUOTE] + r)
  {
  }

  lemma EscapeStart(a: Text, r: Text)
    ensures (EscapeAll(a) + [QUOTE] + r)[0] == QUOTE <==> a == []
    ensures a == [] ==> (EscapeAll(a) + [QUOTE] + r)[1..] == r
  {
    if a != [] {
      assert (EscapeAll(a) + [QUOTE] + r)[0] == Escape(a[0])[0];
    }
  }

  /** A quoted string ends where it ends. */
  lemma QuotedUnique(a: Text, b: Text, r: Text, s: Text)
    requires Quoted(a) + r == Quoted(b) + s
    ensures a == b && r == s
  {
    var left, right := Quoted(a) + r, Quoted(b) + s;
    assert left[1..] == EscapeAll(a) + [QUOTE] + r && right[1..] == EscapeAll(b) + [QUOTE] + s;
    EscapeAllUnique(a, b, r, s);
  }

  lemma {:induction false} EscapeAllSurrogates(text: Text)
    ensures SurrogateFree(EscapeAll(text)) <==> SurrogateFree(text)
  {
    if text != [] {
      EscapeAllSurrogates(text[1..]);
      SurrogateFreeAppend(Escape(text[0]), EscapeAll(text[1..]));
      SurrogateFreeAppend([text[0]], text[1..]);
      assert text == [text[0]] + text[1..];
      EscapeSurrogate(text[0]);
    }
  }

  lemma EscapeSurrogate(c: CodePoint)
    ensures SurrogateFree(Escape(c)) <==> !Surrogate(c)
  {
    if Surrogate(c) {
      assert Escape(c)[0] == c;
    }
  }

  lemma QuotedSurrogates(text: Text)
    ensures SurrogateFree(Quoted(text)) <==> SurrogateFree(text)
  {
    EscapeAllSurrogates(text);
    SurrogateFreeAppend([QUOTE] + EscapeAll(text), [QUOTE]);
    SurrogateFreeAppend([QUOTE], EscapeAll(text));
  }

  // ---------------------------------------------------------------------
  // Integers.
  // ---------------------------------------------------------------------

  function Digits(n: nat): Text {
    if n < 10 then [0x30 + n] else Digits(n / 10) + [0x30 + n % 10]
  }

  function IntegerText(n: int): Text {
    if n < 0 then [0x2D] + Digits(-n) else Digits(n)
  }

  predicate Digit(c: CodePoint) {
    0x30 <= c < 0x3A
  }

  lemma {:induction false} DigitsAreDigits(n: nat)
    ensures Digits(n) != [] && forall i | 0 <= i < |Digits(n)| :: Digit(Digits(n)[i])
  {
    if n >= 10 {
      DigitsAreDigits(n / 10);
    }
  }

  lemma {:induction false} DigitsInjective(m: nat, n: nat)
    ensures Digits(m) == Digits(n) <==> m == n
  {
    if Digits(m) == Digits(n) {
      DigitsAreDigits(m / 10);
      DigitsAreDigits(n / 10);
      if m >= 10 && n >= 10 {
        assert Digits(m)[..|Digits(m)| - 1] == Digits(m / 10) && Digits(n)[..|Digits(n)| - 1] == Digits(n / 10);
        DigitsInjective(m / 10, n / 10);
        assert Digits(m)[|Digits(m)| - 1] == 0x30 + m % 10 && Digits(n)[|Digits(n)| - 1] == 0x30 + n % 10;
      }
    }
  }

  /** What can follow a value: the end, a comma or a closing bracket. */
  predicate Ends(rest: Text) {
    rest == [] || rest[0] == 0x2C || rest[0] == 0x5D || rest[0] == 0x7D
  }

  lemma SameRun(a: Text, b: Text, r: Text, s: Text)
    requires a + r == b + s && Ends(r) && Ends(s)
    requires forall i | 0 <= i < |a| :: Digit(a[i])
    requires forall i | 0 <= i < |b| :: Digit(b[i])
    ensures a == b && r == s
  {
    RunEnds(a, r);
    RunEnds(b, s);
    assert |a| == |b|;
    assert a == (a + r)[..|a|] && b == (b + s)[..|b|] && r == (a + r)[|a|..] && s == (b + s)[|b|..];
  }

  lemma RunEnds(a: Text, r: Text)
    requires Ends(r) && forall i | 0 <= i < |a| :: Digit(a[i])
    ensures |a + r| > |a| ==> !Digit((a + r)[|a|])
    ensures forall i | 0 <= i < |a| :: Digit((a + r)[i])
  {
  }

  lemma IntegerSign(n: int, r: Text)
    ensures (IntegerText(n) + r)[0] == 0x2D <==> n < 0
    ensures n < 0 ==> (IntegerText(n) + r)[1..] == Digits(-n) + r
  {
    DigitsAreDigits(if n < 0 then -n else n);
  }

  lemma IntegerUnique(m: int, n: int, r: Text, s: Text)
    requires IntegerText(m) + r == IntegerText(n) + s && Ends(r) && Ends(s)
    ensures m == n && r == s
  {
    hide Digits;
    IntegerSign(m, r);
    IntegerSign(n, s);
    if m < 0 {
      NaturalUnique(-m, -n, r, s);
    } else {
      NaturalUnique(m, n, r, s);
    }
  }

  lemma NaturalUnique(m: nat, n: nat, r: Text, s: Text)
    requires Digits(m) + r == Digits(n) + s && Ends(r) && Ends(s)
    ensures m == n && r == s
  {
    hide Digits;
    DigitsAreDigits(m);
    DigitsAreDigits(n);
    SameRun(Digits(m), Digits(n), r, s);
    DigitsInjective(m, n);
  }

  lemma IntegerSurrogates(n: int)
    ensures SurrogateFree(IntegerText(n))
  {
    DigitsAreDigits(if n < 0 then -n else n);
  }

  // ---------------------------------------------------------------------
  // UTF-8.
  // ---------------------------------------------------------------------

  function Utf8(c: CodePoint): seq<nat> {
    if c < 0x80 then [c]
    else if c < 0x800 then [0xC0 + c / 0x40, 0x80 + c % 0x40]
    else if c < 0x10000 then [0xE0 + c / 0x1000, 0x80 + c / 0x40 % 0x40, 0x80 + c % 0x40]
    else [0xF0 + c / 0x40000, 0x80 + c / 0x1000 % 0x40, 0x80 + c / 0x40 % 0x40, 0x80 + c % 0x40]
  }

  function Utf8All(text: Text): seq<nat> {
    if text == [] then [] else Utf8(text[0]) + Utf8All(text[1..])
  }

  function Utf8Length(first: nat): nat {
    if first < 0x80 then 1 else if first < 0xE0 then 2 else if first < 0xF0 then 3 else 4
  }

  lemma Utf8First(c: CodePoint)
    ensures |Utf8(c)| == Utf8Length(Utf8(c)[0])
  {
  }

  lemma Utf8Value(c: CodePoint, d: CodePoint)
    ensures Utf8(c) == Utf8(d) ==> c == d
  {
    if Utf8(c) == Utf8(d) {
      assert |Utf8(c)| == |Utf8(d)|;
      if |Utf8(c)| == 2 {
        assert Utf8(c)[0] == Utf8(d)[0] && Utf8(c)[1] == Utf8(d)[1];
      } else if |Utf8(c)| == 3 {
        assert Utf8(c)[0] == Utf8(d)[0] && Utf8(c)[1] == Utf8(d)[1] && Utf8(c)[2] == Utf8(d)[2];
        SameParts(c, d);
      } else if |Utf8(c)| == 4 {
        assert Utf8(c)[0] == Utf8(d)[0] && Utf8(c)[1] == Utf8(d)[1];
        assert Utf8(c)[2] == Utf8(d)[2] && Utf8(c)[3] == Utf8(d)[3];
        SameParts(c, d);
      }
    }
  }

  lemma SameParts(c: nat, d: nat)
    requires c % 0x40 == d % 0x40 && c / 0x40 % 0x40 == d / 0x40 % 0x40
    ensures c / 0x1000 == d / 0x1000 ==> c == d
    ensures c / 0x1000 % 0x40 == d / 0x1000 % 0x40 && c / 0x40000 == d / 0x40000 ==> c == d
  {
    Split6(c);
    Split6(d);
  }

  lemma Split6(c: nat)
    ensures c == c / 0x1000 * 0x1000 + c / 0x40 % 0x40 * 0x40 + c % 0x40
    ensures c / 0x1000 == c / 0x40000 * 0x40 + c / 0x1000 % 0x40
  {
    assert c / 0x40 / 0x40 == c / 0x1000;
    assert c / 0x1000 / 0x40 == c / 0x40000;
  }

  lemma {:induction false} Utf8AllUnique(a: Text, b: Text)
    ensures Utf8All(a) == Utf8All(b) <==> a == b
    decreases |a|
  {
    if Utf8All(a) == Utf8All(b) {
      if a != [] && b != [] {
        var left, right := Utf8(a[0]), Utf8(b[0]);
        assert Utf8All(a)[0] == left[0] && Utf8All(b)[0] == right[0];
        Utf8First(a[0]);
        Utf8First(b[0]);
        assert left == Utf8All(a)[..|left|] && right == Utf8All(b)[..|right|];
        Utf8Value(a[0], b[0]);
        assert Utf8All(a[1..]) == Utf8All(a)[|left|..] && Utf8All(b[1..]) == Utf8All(b)[|right|..];
        Utf8AllUnique(a[1..], b[1..]);
        assert a == [a[0]] + a[1..] && b == [b[0]] + b[1..];
      }
    }
  }

  // ---------------------------------------------------------------------
  // UTF-16 code units and the order of keys.
  // ---------------------------------------------------------------------

  function Units(c: CodePoint): seq<nat> {
    if c < 0x10000 then [c] else [0xD800 + (c - 0x10000) / 0x400, 0xDC00 + (c - 0x10000) % 0x400]
  }

  function Utf16(text: Text): seq<nat> {
    if text == [] then [] else Units(text[0]) + Utf16(text[1..])
  }

  /** Big-endian bytes: what `key.encode("utf-16be", "surrogatepass")` gives to sort by. */
  function Bytes(units: seq<nat>): seq<nat> {
    if units == [] then [] else [units[0] / 0x100, units[0] % 0x100] + Bytes(units[1..])
  }

  function KeyBytes(key: Text): seq<nat> {
    Bytes(Utf16(key))
  }

  /** Comparing big-endian bytes is comparing units. */
  lemma {:induction false} BytesOrder(a: seq<nat>, b: seq<nat>)
    ensures CompareNumbers(Bytes(a), Bytes(b)) < 0 <==> CompareNumbers(a, b) < 0
    ensures CompareNumbers(Bytes(a), Bytes(b)) == 0 <==> CompareNumbers(a, b) == 0
  {
    if a != [] && b != [] {
      BytesOrder(a[1..], b[1..]);
      var x, y := Bytes(a), Bytes(b);
      assert x[1..] == [a[0] % 0x100] + Bytes(a[1..]) && y[1..] == [b[0] % 0x100] + Bytes(b[1..]);
      assert x[1..][1..] == Bytes(a[1..]) && y[1..][1..] == Bytes(b[1..]);
    }
  }

  /** Surrogate-free texts with the same code units are the same. */
  lemma {:induction false} Utf16Unique(a: Text, b: Text)
    requires SurrogateFree(a) && SurrogateFree(b)
    ensures Utf16(a) == Utf16(b) <==> a == b
    decreases |a|
  {
    if Utf16(a) == Utf16(b) {
      if a != [] && b != [] {
        var left, right := Units(a[0]), Units(b[0]);
        assert Utf16(a)[0] == left[0] && Utf16(b)[0] == right[0];
        assert |left| == |right|;
        if |left| == 2 {
          assert Utf16(a)[1] == left[1] && Utf16(b)[1] == right[1];
        }
        assert a[0] == b[0];
        assert Utf16(a[1..]) == Utf16(a)[|left|..] && Utf16(b[1..]) == Utf16(b)[|right|..];
        SurrogateFreeAppend([a[0]], a[1..]);
        SurrogateFreeAppend([b[0]], b[1..]);
        assert a == [a[0]] + a[1..] && b == [b[0]] + b[1..];
        Utf16Unique(a[1..], b[1..]);
      }
    }
  }

  lemma KeyBytesUnique(a: Text, b: Text)
    requires SurrogateFree(a) && SurrogateFree(b)
    ensures KeyBytes(a) == KeyBytes(b) <==> a == b
  {
    BytesOrder(Utf16(a), Utf16(b));
    CompareNumbersIsLexical(Utf16(a), Utf16(b));
    CompareNumbersIsLexical(KeyBytes(a), KeyBytes(b));
    Utf16Unique(a, b);
  }
}
